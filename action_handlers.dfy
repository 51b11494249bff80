/**
 * The action API handlers. Each runs for an authenticated user and every
 * query it makes is scoped to that user's id.
 */
module ActionHandlers {
  import opened Wrappers
  import opened ApiResult
  import Accounts
  import opened ActionTypes
  import opened DestinationDb
  import opened ActionDb

  datatype AddActionRequest = AddActionRequest(destinationId: DestinationId, prompt: string, message: string)

  /** `ListActionDestinations::handle`: the caller's destinations. */
  method ListActionDestinations(uid: Accounts.UserId, destinations: DestinationTable)
    returns (r: ApiResult<seq<ActionDestination>>)
    requires destinations.Valid()
    ensures r.Ok?
    ensures forall d :: d in r.value <==>
      exists x :: x in destinations.rows && x.userId == uid && Decode(x) == d
  {
    r := destinations.List(uid);
    forall d ensures d in r.value <==> exists x :: x in destinations.rows && x.userId == uid && Decode(x) == d {
      DestinationDb.ListIsExactlyOwned(destinations.rows, uid, d);
    }
  }

  /**
   * `AddAction::handle`: the destination must be the caller's; then one new
   * action row, and the action as the client will list it.
   */
  method AddAction(uid: Accounts.UserId, req: AddActionRequest, destinations: DestinationTable,
                   actions: ActionTable, newId: ActionId)
    returns (r: ApiResult<Action>)
    requires destinations.Valid() && actions.Valid()
    requires forall i :: 0 <= i < |actions.rows| ==> actions.rows[i].id != newId
    modifies actions
    ensures actions.Valid()
    ensures !OwnsDestination(destinations.rows, uid, req.destinationId) ==>
      r == Err(NoSuchDestination(req.destinationId, uid)) && actions.rows == old(actions.rows)
    ensures OwnsDestination(destinations.rows, uid, req.destinationId) ==> (
      r.Ok? && r.value.id == newId && r.value.prompt == req.prompt && r.value.message == req.message
      && r.value.destination.id == req.destinationId
      && r.value.destination in DecodeAll(Owned(destinations.rows, uid))
      && actions.rows == old(actions.rows) + [ActionRow(newId, req.destinationId, req.prompt, req.message)])
  {
    var destination := destinations.LoadWithUserId(req.destinationId, uid);
    if destination.Err? {
      return Err(destination.error);
    }
    var inserted := actions.Insert(newId, req.destinationId, req.prompt, req.message);
    r := Ok(Action(newId, Decode(destination.value), req.prompt, req.message));
    DestinationDb.ListIsExactlyOwned(destinations.rows, uid, Decode(destination.value));
  }

  /** `DeleteAction::handle`: the delete is scoped to the caller. */
  method DeleteAction(uid: Accounts.UserId, id: ActionId, destinations: DestinationTable, actions: ActionTable)
    returns (r: ApiResult<()>)
    requires actions.Valid()
    modifies actions
    ensures actions.Valid() && r == Ok(())
    ensures actions.rows == DeleteOwned(old(actions.rows), destinations.rows, uid, id)
  {
    r := actions.Delete(destinations.rows, uid, id);
  }

  /** `ListActions::handle`: the caller's actions. */
  method ListActions(uid: Accounts.UserId, destinations: DestinationTable, actions: ActionTable)
    returns (r: ApiResult<seq<Action>>)
    requires destinations.Valid()
    ensures r == Ok(Joined(actions.rows, destinations.rows, uid))
  {
    r := actions.List(destinations.rows, uid);
  }

  /** An added action is listed for its owner, with the destination it was added to. */
  lemma {:induction false} AddedActionIsListed(rows: seq<ActionRow>, destinations: seq<DestinationRow>,
                                               uid: Accounts.UserId, req: AddActionRequest, newId: ActionId, d: nat)
    requires forall k :: 0 <= k < |destinations| ==> KnownKind(destinations[k])
    requires d < |destinations| && destinations[d].id == req.destinationId && destinations[d].userId == uid
    ensures var after := rows + [ActionRow(newId, req.destinationId, req.prompt, req.message)];
      Action(newId, Decode(destinations[d]), req.prompt, req.message) in Joined(after, destinations, uid)
  {
    var after := rows + [ActionRow(newId, req.destinationId, req.prompt, req.message)];
    ActionDb.ListIsExactlyOwned(after, destinations, uid, |rows|, d);
  }

  /**
   * No other user sees it: with destination ids unique, the new row adds
   * nothing to the list of a user who does not own the destination.
   */
  lemma {:induction false} AddedActionIsPrivate(rows: seq<ActionRow>, destinations: seq<DestinationRow>,
                                                uid: Accounts.UserId, other: Accounts.UserId,
                                                req: AddActionRequest, newId: ActionId, d: nat)
    requires forall k :: 0 <= k < |destinations| ==> KnownKind(destinations[k])
    requires forall k, l :: 0 <= k < l < |destinations| ==> destinations[k].id != destinations[l].id
    requires d < |destinations| && destinations[d].id == req.destinationId && destinations[d].userId == uid
    requires other != uid
    ensures var after := rows + [ActionRow(newId, req.destinationId, req.prompt, req.message)];
      Joined(after, destinations, other) == Joined(rows, destinations, other)
  {
    var row := ActionRow(newId, req.destinationId, req.prompt, req.message);
    var after := rows + [row];
    ActionDb.ListIsExactlyOwned(after, destinations, other, |rows|, d);
    JoinedAppend(rows, row, destinations, other);
  }

  /** The list of a table with one more row is the old list followed by that row's records. */
  lemma {:induction false} JoinedAppend(rows: seq<ActionRow>, row: ActionRow, destinations: seq<DestinationRow>,
                                        uid: Accounts.UserId)
    requires forall k :: 0 <= k < |destinations| ==> KnownKind(destinations[k])
    ensures Joined(rows + [row], destinations, uid) == Joined(rows, destinations, uid) + JoinOne(row, destinations, uid)
    decreases |rows|
  {
    if |rows| == 0 {
      assert rows + [row] == [row];
      assert [row][1..] == [];
    } else {
      assert (rows + [row])[1..] == rows[1..] + [row];
      JoinedAppend(rows[1..], row, destinations, uid);
    }
  }
}
