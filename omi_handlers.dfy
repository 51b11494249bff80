/**
 * The voice-assistant webhook: a transcript arrives for an assistant user,
 * every action of that user whose prompt occurs in some segment is
 * selected, and one Telegram message per selected action is sent to the
 * action's chat. Sending is recorded, not performed: the handler returns
 * the messages it sends.
 */
module OmiHandlers {
  import opened Wrappers
  import opened ApiResult
  import Text
  import Uuid
  import Accounts
  import opened ActionTypes
  import DestinationDb
  import ActionDb
  import TelegramApi

  datatype OmiSegment = OmiSegment(
    text: string,
    speaker: Option<string>,
    speakerId: Option<int>,
    isUser: Option<bool>,
    personId: Option<int>)

  datatype OmiPayload = OmiPayload(segments: seq<OmiSegment>, sessionId: Option<string>)

  datatype OmiWebHookRequest = OmiWebHookRequest(omiUid: string, payload: OmiPayload)

  /** Some segment's lower-cased text contains the lower-cased prompt. */
  predicate Hit(segments: seq<OmiSegment>, prompt: string) {
    exists i :: 0 <= i < |segments| && Text.Contains(Text.AsciiLower(segments[i].text), Text.AsciiLower(prompt))
  }

  /** The actions a transcript selects, in list order. */
  function Selected(actions: seq<Action>, segments: seq<OmiSegment>): (r: seq<Action>)
    ensures forall a :: a in r <==> a in actions && Hit(segments, a.prompt)
    ensures |r| <= |actions|
  {
    if |actions| == 0 then []
    else
      var last := actions[|actions| - 1];
      var front := actions[..|actions| - 1];
      assert actions == front + [last];
      Selected(front, segments) + (if Hit(segments, last.prompt) then [last] else [])
  }

  /** `sub` is `s` at the strictly increasing positions `idx`. */
  predicate PicksOf(idx: seq<nat>, sub: seq<Action>, s: seq<Action>) {
    |idx| == |sub|
    && (forall k :: 0 <= k < |idx| ==> idx[k] < |s| && s[idx[k]] == sub[k])
    && (forall k, l :: 0 <= k < l < |idx| ==> idx[k] < idx[l])
  }

  /** Positions into the front of a list are positions into the list; its last item may be picked too. */
  lemma PicksExtend(idx: seq<nat>, sub: seq<Action>, front: seq<Action>, last: Action)
    requires PicksOf(idx, sub, front)
    ensures PicksOf(idx, sub, front + [last])
    ensures PicksOf(idx + [|front|], sub + [last], front + [last])
  {
    var s := front + [last];
    assert forall k :: 0 <= k < |idx| ==> s[idx[k]] == front[idx[k]];
  }

  /** The selection keeps the list's order: it is the list at increasing positions. */
  lemma {:induction false} SelectedIsSubsequence(actions: seq<Action>, segments: seq<OmiSegment>) returns (idx: seq<nat>)
    ensures PicksOf(idx, Selected(actions, segments), actions)
    decreases |actions|
  {
    if |actions| == 0 {
      idx := [];
    } else {
      var front := actions[..|actions| - 1];
      var last := actions[|actions| - 1];
      assert actions == front + [last];
      var sub := Selected(front, segments);
      idx := SelectedIsSubsequence(front, segments);
      PicksExtend(idx, sub, front, last);
      if Hit(segments, last.prompt) {
        idx := idx + [|front|];
      }
    }
  }

  /** Matching ignores ASCII case, on both sides. */
  lemma {:induction false} HitIgnoresCase(segments: seq<OmiSegment>, prompt: string)
    ensures Hit(segments, prompt) <==> Hit(segments, Text.AsciiLower(prompt))
  {
    LowerIdempotent(prompt);
  }

  lemma {:induction false} LowerIdempotent(s: string)
    ensures Text.AsciiLower(Text.AsciiLower(s)) == Text.AsciiLower(s)
  {
    var once := Text.AsciiLower(s);
    forall i | 0 <= i < |s| ensures Text.AsciiLower(once)[i] == once[i] {
      assert once[i] == Text.LowerChar(s[i]);
    }
  }

  /** The `for` loop of the handler that collects the hits. */
  method SelectActions(actions: seq<Action>, segments: seq<OmiSegment>) returns (selected: seq<Action>)
    ensures selected == Selected(actions, segments)
  {
    selected := [];
    for k := 0 to |actions|
      invariant selected == Selected(actions[..k], segments)
    {
      assert actions[..k + 1][..k] == actions[..k];
      if Hit(segments, actions[k].prompt) {
        selected := selected + [actions[k]];
      }
    }
    assert actions[..|actions|] == actions;
  }

  /** The message text: `message from F (@U): M`, or `message from F: M` without a username. */
  function MessageText(sender: Accounts.TelegramAccount, action: Action): (s: string)
    ensures Text.StartsWith(s, "message from " + sender.firstName)
    ensures Text.EndsWith(s, ": " + action.message)
  {
    var head := "message from " + sender.firstName;
    var tail := ": " + action.message;
    var s := match sender.username
      case Some(username) => head + " (@" + username + ")" + tail
      case None => head + tail;
    assert s[..|head|] == head;
    assert s[|s| - |tail|..] == tail;
    s
  }

  /** One message per selected action, in order, to the action's chat. */
  predicate Delivers(sent: seq<TelegramApi.SentMessage>, selected: seq<Action>, sender: Accounts.TelegramAccount) {
    |sent| == |selected|
    && forall i :: 0 <= i < |sent| ==>
      sent[i] == TelegramApi.SentMessage(selected[i].destination.kind.chatId, MessageText(sender, selected[i]))
  }

  /** The second loop of the handler: one send per selected action. */
  method SendAll(selected: seq<Action>, sender: Accounts.TelegramAccount) returns (sent: seq<TelegramApi.SentMessage>)
    ensures Delivers(sent, selected, sender)
  {
    sent := [];
    for k := 0 to |selected|
      invariant Delivers(sent, selected[..k], sender)
    {
      sent := sent + [TelegramApi.SentMessage(selected[k].destination.kind.chatId, MessageText(sender, selected[k]))];
    }
    assert selected[..|selected|] == selected;
  }

  /** `OmiWebHook::handle` */
  method Handle(req: OmiWebHookRequest, db: Accounts.AccountDb, destinations: DestinationDb.DestinationTable,
                actions: ActionDb.ActionTable)
    returns (r: ApiResult<()>, sent: seq<TelegramApi.SentMessage>)
    requires db.Valid() && destinations.Valid()
    ensures req.payload.segments == [] ==> r == Ok(()) && sent == []
    ensures req.payload.segments != [] && req.omiUid !in db.omi ==>
      r == Err(Omi(NoSuchUser(req.omiUid))) && sent == []
    ensures req.payload.segments != [] && req.omiUid in db.omi ==>
      var uid := db.omi[req.omiUid].userId;
      var selected := Selected(ActionDb.Joined(actions.rows, destinations.rows, uid), req.payload.segments);
      (selected == [] ==> r == Ok(()) && sent == [])
      && (selected != [] && (forall id :: id in db.telegram ==> db.telegram[id].userId != uid) ==>
            r == Err(Accounts.NeedToRegister("user_id " + Accounts.UserIdText(uid))) && sent == [])
      && (selected != [] && (exists id :: id in db.telegram && db.telegram[id].userId == uid) ==> r.Ok?)
      && (selected != [] && r.Ok? ==>
            exists id :: id in db.telegram && db.telegram[id].userId == uid && Delivers(sent, selected, db.telegram[id]))
  {
    sent := [];
    if |req.payload.segments| == 0 {
      return Ok(()), [];
    }
    var omiAccount := db.LoadOmi(req.omiUid);
    if omiAccount.Err? {
      return Err(Omi(NoSuchUser(req.omiUid))), [];
    }
    var uid := omiAccount.value.userId;
    var listed := actions.List(destinations.rows, uid);
    var toSend := SelectActions(listed.value, req.payload.segments);
    if |toSend| == 0 {
      return Ok(()), [];
    }
    var tgUser := db.LoadTelegramByUserId(uid);
    if tgUser.Err? {
      return Err(tgUser.error), [];
    }
    sent := SendAll(toSend, tgUser.value);
    r := Ok(());
  }

  /** `URLSearchParams.get`: the value of the first pair with that name. */
  function QueryGet(query: seq<(string, string)>, name: string): (r: Option<string>)
    ensures r.None? <==> forall i :: 0 <= i < |query| ==> query[i].0 != name
    ensures r.Some? ==> exists i :: (0 <= i < |query| && query[i] == (name, r.value)
                                     && forall j :: 0 <= j < i ==> query[j].0 != name)
  {
    if |query| == 0 then None
    else if query[0].0 == name then Some(query[0].1)
    else
      var rest := QueryGet(query[1..], name);
      assert forall j :: 1 <= j < |query| ==> query[j] == query[1..][j - 1];
      rest
  }

  /**
   * `FromHttpRequest for OmiWebHookRequest`: the assistant user comes from
   * the `uid` query parameter, the transcript from the JSON body (given here
   * already decoded, or the decoder's message).
   */
  function FromRequest(query: seq<(string, string)>, body: Result<OmiPayload, string>): (r: ApiResult<OmiWebHookRequest>)
    ensures QueryGet(query, "uid").None? ==> r == Err(Parse("uid not found"))
    ensures QueryGet(query, "uid").Some? && body.Err? ==> r == Err(Parse(body.error))
    ensures r.Ok? <==> QueryGet(query, "uid").Some? && body.Ok?
    ensures r.Ok? ==> r.value == OmiWebHookRequest(QueryGet(query, "uid").value, body.value)
  {
    match QueryGet(query, "uid")
    case None => Err(Parse("uid not found"))
    case Some(omiUid) =>
      match body
      case Ok(payload) => Ok(OmiWebHookRequest(omiUid, payload))
      case Err(e) => Err(Parse(e))
  }
}
