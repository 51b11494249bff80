/**
 * The `telegram_action` table: a prompt to listen for and the message to
 * send to a destination. Ownership goes through the destination: an action
 * belongs to the user who owns its destination.
 */
module ActionDb {
  import opened Wrappers
  import opened ApiResult
  import Accounts
  import opened ActionTypes
  import opened DestinationDb

  datatype ActionRow = ActionRow(id: ActionId, destinationId: DestinationId, prompt: string, msg: string)

  /** Whether `DELETE ... WHERE id = ?1 AND destination_id IN (the user's destinations)` removes `row`. */
  predicate Deletes(destinations: seq<DestinationRow>, userId: Accounts.UserId, id: ActionId, row: ActionRow) {
    row.id == id && OwnsDestination(destinations, userId, row.destinationId)
  }

  /** Ids are the primary key. */
  predicate UniqueIds(rows: seq<ActionRow>) {
    forall i, j :: 0 <= i < j < |rows| ==> rows[i].id != rows[j].id
  }

  /** The table after the ownership-scoped delete, in the same order. */
  function DeleteOwned(rows: seq<ActionRow>, destinations: seq<DestinationRow>, userId: Accounts.UserId,
                       id: ActionId): (r: seq<ActionRow>)
    ensures forall x :: x in r <==> x in rows && !Deletes(destinations, userId, id, x)
    ensures |r| <= |rows|
  {
    if |rows| == 0 then []
    else if Deletes(destinations, userId, id, rows[0]) then DeleteOwned(rows[1..], destinations, userId, id)
    else [rows[0]] + DeleteOwned(rows[1..], destinations, userId, id)
  }

  /** The action a joined record stands for. */
  function JoinedAction(row: ActionRow, destination: DestinationRow): Action
    requires KnownKind(destination)
  {
    Action(row.id, ActionDestination(row.destinationId, destination.name, DecodeKind(destination.kind, destination.chatId)),
           row.prompt, row.msg)
  }

  /** The joined records of one action row: one per destination row of that id owned by `userId`. */
  function JoinOne(row: ActionRow, destinations: seq<DestinationRow>, userId: Accounts.UserId): (r: seq<Action>)
    requires forall i :: 0 <= i < |destinations| ==> KnownKind(destinations[i])
    ensures forall a :: a in r <==>
      exists j :: 0 <= j < |destinations| && destinations[j].id == row.destinationId
                  && destinations[j].userId == userId && a == JoinedAction(row, destinations[j])
    ensures r == [] <==> forall j :: 0 <= j < |destinations| && destinations[j].id == row.destinationId ==>
      destinations[j].userId != userId
  {
    if |destinations| == 0 then []
    else
      var rest := JoinOne(row, destinations[1..], userId);
      assert forall j :: 1 <= j < |destinations| ==> destinations[j] == destinations[1..][j - 1];
      assert forall a :: a in rest ==>
        exists j :: 1 <= j < |destinations| && destinations[j].id == row.destinationId
                    && destinations[j].userId == userId && a == JoinedAction(row, destinations[j]) by {
        forall a | a in rest
          ensures exists j :: 1 <= j < |destinations| && destinations[j].id == row.destinationId
                              && destinations[j].userId == userId && a == JoinedAction(row, destinations[j])
        {
          var j :| 0 <= j < |destinations[1..]| && destinations[1..][j].id == row.destinationId
                   && destinations[1..][j].userId == userId && a == JoinedAction(row, destinations[1..][j]);
          assert destinations[j + 1] == destinations[1..][j];
        }
      }
      if destinations[0].id == row.destinationId && destinations[0].userId == userId
      then [JoinedAction(row, destinations[0])] + rest
      else rest
  }

  /**
   * `list`: the inner join of actions and the user's destinations, in table
   * order, each record read as an action with its destination decoded.
   */
  function Joined(rows: seq<ActionRow>, destinations: seq<DestinationRow>, userId: Accounts.UserId): (r: seq<Action>)
    requires forall i :: 0 <= i < |destinations| ==> KnownKind(destinations[i])
    ensures forall a :: a in r ==> exists i :: 0 <= i < |rows| && a in JoinOne(rows[i], destinations, userId)
    ensures forall i :: 0 <= i < |rows| ==> forall a :: a in JoinOne(rows[i], destinations, userId) ==> a in r
  {
    if |rows| == 0 then []
    else
      var rest := Joined(rows[1..], destinations, userId);
      assert forall i :: 1 <= i < |rows| ==> rows[i] == rows[1..][i - 1];
      JoinOne(rows[0], destinations, userId) + rest
  }

  class ActionTable {
    var rows: seq<ActionRow>

    ghost predicate Valid()
      reads this
    {
      UniqueIds(rows)
    }

    constructor ()
      ensures Valid() && rows == []
    {
      rows := [];
    }

    /** `insert`: one new row under a fresh id. */
    method Insert(id: ActionId, destinationId: DestinationId, prompt: string, msg: string) returns (r: ApiResult<()>)
      requires Valid() && forall i :: 0 <= i < |rows| ==> rows[i].id != id
      modifies this
      ensures Valid() && r == Ok(())
      ensures rows == old(rows) + [ActionRow(id, destinationId, prompt, msg)]
    {
      rows := rows + [ActionRow(id, destinationId, prompt, msg)];
      r := Ok(());
    }

    /** `delete`: removes the action only when its destination belongs to `userId`. */
    method Delete(destinations: seq<DestinationRow>, userId: Accounts.UserId, id: ActionId) returns (r: ApiResult<()>)
      requires Valid()
      modifies this
      ensures Valid() && r == Ok(())
      ensures rows == DeleteOwned(old(rows), destinations, userId, id)
    {
      SubsequenceKeepsKeys(rows, destinations, userId, id);
      rows := DeleteOwned(rows, destinations, userId, id);
      r := Ok(());
    }

    /** `list` */
    method List(destinations: seq<DestinationRow>, userId: Accounts.UserId) returns (r: ApiResult<seq<Action>>)
      requires forall i :: 0 <= i < |destinations| ==> KnownKind(destinations[i])
      ensures r == Ok(Joined(rows, destinations, userId))
    {
      r := Ok(Joined(rows, destinations, userId));
    }
  }

  /** Deleting keeps the ids of the remaining rows distinct. */
  lemma {:induction false} SubsequenceKeepsKeys(rows: seq<ActionRow>, destinations: seq<DestinationRow>,
                                                userId: Accounts.UserId, id: ActionId)
    requires UniqueIds(rows)
    ensures UniqueIds(DeleteOwned(rows, destinations, userId, id))
    decreases |rows|
  {
    if |rows| > 0 {
      var tail := rows[1..];
      assert UniqueIds(tail) by {
        forall i, j | 0 <= i < j < |tail| ensures tail[i].id != tail[j].id {
          assert tail[i] == rows[i + 1] && tail[j] == rows[j + 1];
        }
      }
      SubsequenceKeepsKeys(tail, destinations, userId, id);
      var r := DeleteOwned(tail, destinations, userId, id);
      forall x | x in r ensures x.id != rows[0].id {
        var k :| 0 <= k < |tail| && tail[k] == x;
        assert rows[k + 1] == x;
      }
      var full := DeleteOwned(rows, destinations, userId, id);
      if !Deletes(destinations, userId, id, rows[0]) {
        assert full == [rows[0]] + r && full[0] == rows[0];
        forall i, j | 0 <= i < j < |full| ensures full[i].id != full[j].id {
          assert full[j] == r[j - 1] && r[j - 1] in r;
          if i > 0 {
            assert full[i] == r[i - 1];
            assert r[i - 1].id != r[j - 1].id;
          } else {
            assert r[j - 1].id != rows[0].id;
          }
        }
      } else {
        assert full == r;
      }
    }
  }

  /** A delete by a user who does not own the action's destination changes nothing. */
  lemma {:induction false} DeleteNotOwnedChangesNothing(rows: seq<ActionRow>, destinations: seq<DestinationRow>,
                                                        userId: Accounts.UserId, id: ActionId)
    requires forall x :: x in rows && x.id == id ==> !OwnsDestination(destinations, userId, x.destinationId)
    ensures DeleteOwned(rows, destinations, userId, id) == rows
    decreases |rows|
  {
    if |rows| > 0 {
      assert rows[0] in rows;
      assert !Deletes(destinations, userId, id, rows[0]);
      assert forall x :: x in rows[1..] ==> x in rows;
      DeleteNotOwnedChangesNothing(rows[1..], destinations, userId, id);
      assert [rows[0]] + rows[1..] == rows;
    }
  }

  /** Rows with another id are never touched, and an owned row with this id is always removed. */
  lemma DeleteIsScoped(rows: seq<ActionRow>, destinations: seq<DestinationRow>, userId: Accounts.UserId,
                       id: ActionId, x: ActionRow)
    requires x in rows
    ensures x.id != id ==> x in DeleteOwned(rows, destinations, userId, id)
    ensures OwnsDestination(destinations, userId, x.destinationId) && x.id == id ==>
      x !in DeleteOwned(rows, destinations, userId, id)
  {
  }

  /**
   * With destination ids unique, a user lists an action exactly when they
   * own its destination, and it is listed with that destination decoded.
   */
  lemma {:induction false} ListIsExactlyOwned(rows: seq<ActionRow>, destinations: seq<DestinationRow>,
                                              userId: Accounts.UserId, i: nat, d: nat)
    requires forall k :: 0 <= k < |destinations| ==> KnownKind(destinations[k])
    requires i < |rows| && d < |destinations| && destinations[d].id == rows[i].destinationId
    ensures destinations[d].userId == userId ==>
      JoinedAction(rows[i], destinations[d]) in Joined(rows, destinations, userId)
    ensures ((forall k, l :: 0 <= k < l < |destinations| ==> destinations[k].id != destinations[l].id)
             && destinations[d].userId != userId) ==>
      JoinOne(rows[i], destinations, userId) == []
  {
    var one := JoinOne(rows[i], destinations, userId);
    if destinations[d].userId == userId {
      assert JoinedAction(rows[i], destinations[d]) in one;
    } else if forall k, l :: 0 <= k < l < |destinations| ==> destinations[k].id != destinations[l].id {
      forall j | 0 <= j < |destinations| && destinations[j].id == rows[i].destinationId
        ensures destinations[j].userId != userId
      {
        assert j == d;
      }
    }
  }
}
