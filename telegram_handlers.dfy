/**
 * The Telegram bot webhook: the secret-token gate in front of it, and the
 * handling of one update. `/start` answers with the settings address;
 * `/link` (private chat) and `/omi link` (group) link the chat as a
 * destination of the sender's account, once.
 */
module TelegramHandlers {
  import opened Wrappers
  import opened ApiResult
  import Text
  import Config
  import Cloudflare
  import Http
  import Accounts
  import opened ActionTypes
  import DestinationDb
  import TelegramApi

  const HEADER_SECRET: string := "X-Telegram-Bot-Api-Secret-Token"

  predicate WebhookSecretConfigured(env: Cloudflare.Env) {
    Config.ENV_KEY_TELEGRAM_WEBHOOK_SECRET in env.secrets
  }

  /**
   * `FromHttpRequest for TelegramWebHookRequest`: the body (already parsed,
   * `body`) is only looked at when the request carries the configured,
   * non-empty secret.
   */
  function FromRequest(env: Cloudflare.Env, req: Http.Request, body: ApiResult<TelegramApi.WebHookRequest>)
    : (r: ApiResult<TelegramApi.WebHookRequest>)
    requires Http.TryHeader(req, HEADER_SECRET).Some? ==> WebhookSecretConfigured(env)
    ensures Http.TryHeader(req, HEADER_SECRET).None? ==> r == Err(Telegram(Unauthorized))
    ensures Http.TryHeader(req, HEADER_SECRET).Some? ==> (
      var secret := env.secrets[Config.ENV_KEY_TELEGRAM_WEBHOOK_SECRET];
      (secret == "" || Http.TryHeader(req, HEADER_SECRET).value != secret ==> r == Err(Telegram(Unauthorized)))
      && (secret != "" && Http.TryHeader(req, HEADER_SECRET).value == secret ==> r == body))
  {
    match Http.TryHeader(req, HEADER_SECRET)
    case None => Err(Telegram(Unauthorized))
    case Some(value) =>
      var secret := env.secrets[Config.ENV_KEY_TELEGRAM_WEBHOOK_SECRET];
      if secret == "" || value != secret then Err(Telegram(Unauthorized)) else body
  }

  /** Only a request that presents the configured secret, and a non-empty one, reaches the handler. */
  lemma AcceptedRequestHasSecret(env: Cloudflare.Env, req: Http.Request, body: ApiResult<TelegramApi.WebHookRequest>)
    requires Http.TryHeader(req, HEADER_SECRET).Some? ==> WebhookSecretConfigured(env)
    requires FromRequest(env, req, body).Ok?
    ensures WebhookSecretConfigured(env) && env.secrets[Config.ENV_KEY_TELEGRAM_WEBHOOK_SECRET] != ""
    ensures Http.TryHeader(req, HEADER_SECRET) == Some(env.secrets[Config.ENV_KEY_TELEGRAM_WEBHOOK_SECRET])
    ensures FromRequest(env, req, body) == body
  {
  }

  /** With no secret configured (an empty one), every webhook call is refused. */
  lemma EmptySecretRefusesAll(env: Cloudflare.Env, req: Http.Request, body: ApiResult<TelegramApi.WebHookRequest>)
    requires WebhookSecretConfigured(env) && env.secrets[Config.ENV_KEY_TELEGRAM_WEBHOOK_SECRET] == ""
    ensures FromRequest(env, req, body) == Err(Telegram(Unauthorized))
  {
  }

  /** The destination kind of the chat a message came from. */
  function ChatKind(chat: TelegramApi.TelegramChat): (k: DestinationKind)
    ensures k.chatId == chat.id
    ensures k.TelegramDm? <==> chat.chatType == TelegramApi.Private
  {
    if chat.chatType == TelegramApi.Private then TelegramDm(chat.id) else TelegramGroup(chat.id)
  }

  /**
   * The name a new destination is stored under: for a private chat the
   * sender's first name, followed by ` (@username)` when they have one; for
   * a group its title, or `Group <chat id>` without one.
   */
  function DestinationName(message: TelegramApi.TelegramMessage): (name: string)
    ensures message.chat.chatType == TelegramApi.Private ==> (
      (message.from.username.None? ==> name == message.from.firstName)
      && (message.from.username.Some? ==>
            Text.StartsWith(name, message.from.firstName)
            && Text.EndsWith(name, " (@" + message.from.username.value + ")")))
    ensures message.chat.chatType != TelegramApi.Private ==> (
      (message.chat.title.Some? ==> name == message.chat.title.value)
      && (message.chat.title.None? ==>
            Text.StartsWith(name, "Group ")
            && (Text.I64_MIN <= message.chat.id <= Text.I64_MAX ==> Text.ParseI64(name[6..]) == Some(message.chat.id))))
  {
    match ChatKind(message.chat)
    case TelegramDm(_) =>
      (match message.from.username
       case None => message.from.firstName
       case Some(u) => message.from.firstName + " (@" + u + ")")
    case TelegramGroup(_) =>
      (match message.chat.title
       case None => GroupName(message.chat.id)
       case Some(title) => title)
  }

  /** `Group <chat id>`: an `i64` chat id can be read back from the name. */
  function GroupName(chatId: int): (name: string)
    ensures Text.StartsWith(name, "Group ")
    ensures Text.I64_MIN <= chatId <= Text.I64_MAX ==> Text.ParseI64(name[6..]) == Some(chatId)
  {
    var name := "Group " + Text.IntToString(chatId);
    assert name[6..] == Text.IntToString(chatId);
    if Text.I64_MIN <= chatId <= Text.I64_MAX then Text.ParseIntToString(chatId); name else name
  }

  /** What `handle_link` decides for a message, given the accounts and destinations it reads. */
  datatype LinkStep =
    | Unregistered
    | AlreadyLinked(userId: Accounts.UserId)
    | NewLink(userId: Accounts.UserId, name: string, kind: DestinationKind)

  /** Whether `userId` already has a destination for chat `chatId` (`exists_by_user_chat_id`). */
  predicate Linked(rows: seq<DestinationDb.DestinationRow>, userId: Accounts.UserId, chatId: int) {
    exists i :: 0 <= i < |rows| && rows[i].userId == userId && rows[i].chatId == chatId
  }

  function LinkDecision(telegram: map<int, Accounts.TelegramAccount>, rows: seq<DestinationDb.DestinationRow>,
                        message: TelegramApi.TelegramMessage): (step: LinkStep)
    ensures step.Unregistered? <==> message.from.id !in telegram
    ensures step.AlreadyLinked? <==>
      message.from.id in telegram && Linked(rows, telegram[message.from.id].userId, message.chat.id)
    ensures !step.Unregistered? ==> step.userId == telegram[message.from.id].userId
    ensures step.NewLink? ==> step.kind == ChatKind(message.chat) && step.name == DestinationName(message)
  {
    if message.from.id !in telegram then Unregistered
    else
      var uid := telegram[message.from.id].userId;
      if Linked(rows, uid, message.chat.id) then AlreadyLinked(uid)
      else NewLink(uid, DestinationName(message), ChatKind(message.chat))
  }

  function RegisterFirstText(url: string): string {
    "you need to first register an account at " + url
  }

  function WelcomeText(url: string): string {
    "Welcome to Omi Assist! You can manage your settings at " + url
  }

  /** The one reply of `handle_link`, which depends on the step and on whether the chat is private. */
  function LinkReply(chat: TelegramApi.TelegramChat, step: LinkStep, url: string): string {
    var private := chat.chatType == TelegramApi.Private;
    match step
    case Unregistered => RegisterFirstText(url)
    case AlreadyLinked(_) => if private then "You have already linked this chat" else "You have already linked this group"
    case NewLink(_, _, _) => if private then "Chat linked successfully" else "Group linked successfully"
  }

  /** Whether the stored names of the account differ from the sender's. */
  predicate NamesStale(account: Accounts.TelegramAccount, from: TelegramApi.TelegramUser) {
    account.firstName != from.firstName || account.username != from.username
  }

  /**
   * The Telegram accounts after `handle_link` refreshed the sender's stored
   * names: the first name is written, and the username when the sender has one.
   */
  function Refreshed(telegram: map<int, Accounts.TelegramAccount>, from: TelegramApi.TelegramUser)
    : (r: map<int, Accounts.TelegramAccount>)
    ensures r.Keys == telegram.Keys
    ensures forall id :: id in telegram && id != from.id ==> r[id] == telegram[id]
    ensures from.id in telegram ==>
      r[from.id].firstName == from.firstName && r[from.id].id == telegram[from.id].id
      && r[from.id].userId == telegram[from.id].userId
    ensures from.id in telegram && from.username.Some? ==> r[from.id].username == from.username
    ensures from.id in telegram && from.username.None? ==> r[from.id].username == telegram[from.id].username
  {
    if from.id in telegram && NamesStale(telegram[from.id], from) then
      telegram[from.id := Accounts.RenamedAsWritten(telegram[from.id], from.firstName, from.username)]
    else telegram
  }

  /**
   * The refresh settles the stored names unless the sender has dropped a
   * username: then the old one stays, the names still differ, and every
   * later link message writes them again without changing anything.
   */
  lemma RefreshSettlesUnlessUsernameDropped(telegram: map<int, Accounts.TelegramAccount>,
                                            from: TelegramApi.TelegramUser)
    requires from.id in telegram
    ensures NamesStale(Refreshed(telegram, from)[from.id], from)
      <==> from.username.None? && telegram[from.id].username.Some?
    ensures Refreshed(Refreshed(telegram, from), from) == Refreshed(telegram, from)
  {
    var once := Refreshed(telegram, from);
    var a := once[from.id];
    if NamesStale(a, from) {
      assert Accounts.RenamedAsWritten(a, from.firstName, from.username) == a;
      assert once[from.id := a] == once;
    }
  }

  /** With the intended rename the names always settle: the next link message finds nothing to update. */
  lemma CorrectedRefreshSettles(account: Accounts.TelegramAccount, from: TelegramApi.TelegramUser)
    ensures !NamesStale(Accounts.Renamed(account, from.firstName, from.username), from)
  {
  }

  /** The destinations after a link step: one new row for a new link, nothing otherwise. */
  function Linking(rows: seq<DestinationDb.DestinationRow>, step: LinkStep, newId: DestinationId)
    : seq<DestinationDb.DestinationRow>
  {
    if step.NewLink? then rows + [DestinationDb.Encode(newId, step.userId, step.name, step.kind)] else rows
  }

  /** `handle_link` */
  method HandleLink(env: Cloudflare.Env, message: TelegramApi.TelegramMessage, db: Accounts.AccountDb,
                    destinations: DestinationDb.DestinationTable, newId: DestinationId)
    returns (r: ApiResult<()>, sent: seq<TelegramApi.SentMessage>)
    requires db.Valid() && destinations.Valid()
    requires forall i :: 0 <= i < |destinations.rows| ==> destinations.rows[i].id != newId
    modifies db, destinations
    ensures r == Ok(()) && db.Valid() && destinations.Valid()
    ensures var step := LinkDecision(old(db.telegram), old(destinations.rows), message);
      sent == [TelegramApi.SentMessage(message.chat.id, LinkReply(message.chat, step, Config.FrontendUrl(env.profile)))]
      && destinations.rows == Linking(old(destinations.rows), step, newId)
    ensures db.telegram == Refreshed(old(db.telegram), message.from)
    ensures db.users == old(db.users) && db.omi == old(db.omi)
  {
    var url := Config.FrontendUrl(env.profile);
    var account := db.LoadTelegram(message.from.id);
    if account.Err? {
      return Ok(()), [TelegramApi.SentMessage(message.chat.id, RegisterFirstText(url))];
    }
    var tgUser := account.value;
    if tgUser.firstName != message.from.firstName || tgUser.username != message.from.username {
      var _ := db.UpdateTelegramName(tgUser.id, message.from.firstName, message.from.username);
    }
    var exists_ := destinations.ExistsByUserChatId(tgUser.userId, message.chat.id);
    if exists_.value {
      return Ok(()), [TelegramApi.SentMessage(message.chat.id, LinkReply(message.chat, AlreadyLinked(tgUser.userId), url))];
    }
    var kind := ChatKind(message.chat);
    var name := DestinationName(message);
    var _ := destinations.Insert(newId, tgUser.userId, name, kind);
    r := Ok(());
    sent := [TelegramApi.SentMessage(message.chat.id, LinkReply(message.chat, NewLink(tgUser.userId, name, kind), url))];
  }

  /**
   * `TelegramWebHook::handle`: an update without a message, a message the
   * parser refuses and a message from a bot are acknowledged and nothing
   * else happens; `/start` sends the welcome; the link commands link.
   */
  method Handle(env: Cloudflare.Env, req: TelegramApi.WebHookRequest, db: Accounts.AccountDb,
                destinations: DestinationDb.DestinationTable, newId: DestinationId)
    returns (r: ApiResult<()>, sent: seq<TelegramApi.SentMessage>)
    requires db.Valid() && destinations.Valid()
    requires forall i :: 0 <= i < |destinations.rows| ==> destinations.rows[i].id != newId
    modifies db, destinations
    ensures r == Ok(()) && db.Valid() && destinations.Valid()
    ensures db.users == old(db.users) && db.omi == old(db.omi)
    ensures !Links(req) ==> (
      db.telegram == old(db.telegram) && destinations.rows == old(destinations.rows)
      && (Welcomes(req) ==>
            sent == [TelegramApi.SentMessage(req.message.value.chat.id, WelcomeText(Config.FrontendUrl(env.profile)))])
      && (!Welcomes(req) ==> sent == []))
    ensures Links(req) ==> (
      var message := req.message.value;
      var step := LinkDecision(old(db.telegram), old(destinations.rows), message);
      sent == [TelegramApi.SentMessage(message.chat.id, LinkReply(message.chat, step, Config.FrontendUrl(env.profile)))]
      && destinations.rows == Linking(old(destinations.rows), step, newId)
      && db.telegram == Refreshed(old(db.telegram), message.from))
  {
    r, sent := Ok(()), [];
    if req.message.None? {
      return;
    }
    var message := req.message.value;
    match TelegramApi.ParseCommand(message)
    case Err(err) =>
      match err {
        case UnknownCommand(_) =>
        case OmiCommand(_) =>
        case UnsupportedMessage =>
      }
    case Ok(command) =>
      if message.from.isBot {
        return;
      }
      match command
      case Start =>
        sent := [TelegramApi.SentMessage(message.chat.id, WelcomeText(Config.FrontendUrl(env.profile)))];
      case Omi(_) =>
        r, sent := HandleLink(env, message, db, destinations, newId);
  }

  /** A message from a person that the parser reads as a command. */
  predicate Commanded(req: TelegramApi.WebHookRequest) {
    req.message.Some? && !req.message.value.from.isBot && TelegramApi.ParseCommand(req.message.value).Ok?
  }

  /** The update is a person's `/start`. */
  predicate Welcomes(req: TelegramApi.WebHookRequest) {
    Commanded(req) && TelegramApi.ParseCommand(req.message.value).value.Start?
  }

  /** The update is a person's `/link` or `/omi link`. */
  predicate Links(req: TelegramApi.WebHookRequest) {
    Commanded(req) && TelegramApi.ParseCommand(req.message.value).value.Omi?
  }

  /** A person who has registered links a new chat: one destination, of the chat's kind, owned by their user. */
  lemma NewChatIsLinked(telegram: map<int, Accounts.TelegramAccount>, rows: seq<DestinationDb.DestinationRow>,
                        message: TelegramApi.TelegramMessage, newId: DestinationId)
    requires message.from.id in telegram
    requires !Linked(rows, telegram[message.from.id].userId, message.chat.id)
    ensures var after := Linking(rows, LinkDecision(telegram, rows, message), newId);
      after == rows + [DestinationDb.Encode(newId, telegram[message.from.id].userId, DestinationName(message),
                                            ChatKind(message.chat))]
      && Linked(after, telegram[message.from.id].userId, message.chat.id)
  {
    var step := LinkDecision(telegram, rows, message);
    DestinationDb.InsertedIsLinked(rows, newId, step.userId, step.name, step.kind);
  }

  /**
   * Linking is done once: after a chat has been linked, the same command
   * again (the names are refreshed in between) finds it linked and adds no row.
   */
  lemma {:induction false} LinkingTwiceLinksOnce(telegram: map<int, Accounts.TelegramAccount>,
                                                 rows: seq<DestinationDb.DestinationRow>,
                                                 message: TelegramApi.TelegramMessage, newId: DestinationId,
                                                 laterId: DestinationId)
    ensures var first := LinkDecision(telegram, rows, message);
      var rows1 := Linking(rows, first, newId);
      var second := LinkDecision(Refreshed(telegram, message.from), rows1, message);
      !first.Unregistered? ==> second == AlreadyLinked(first.userId) && Linking(rows1, second, laterId) == rows1
  {
    var first := LinkDecision(telegram, rows, message);
    if first.NewLink? {
      DestinationDb.InsertedIsLinked(rows, newId, first.userId, first.name, first.kind);
    }
  }

  /** An unregistered sender is told to register; no account and no destination changes. */
  lemma UnregisteredChangesNothing(telegram: map<int, Accounts.TelegramAccount>,
                                   rows: seq<DestinationDb.DestinationRow>,
                                   message: TelegramApi.TelegramMessage, newId: DestinationId, url: string)
    requires message.from.id !in telegram
    ensures Linking(rows, LinkDecision(telegram, rows, message), newId) == rows
    ensures Refreshed(telegram, message.from) == telegram
    ensures LinkReply(message.chat, LinkDecision(telegram, rows, message), url) == RegisterFirstText(url)
  {
  }

  /** Messages from bots are never acted on, whatever their text. */
  lemma BotsAreIgnored(req: TelegramApi.WebHookRequest)
    requires req.message.Some? && req.message.value.from.isBot
    ensures !Links(req) && !Welcomes(req)
  {
  }

  /** In a group, `/link` is not a link command: only `/omi link` is. */
  lemma GroupNeedsOmiLink(req: TelegramApi.WebHookRequest)
    requires req.message.Some? && req.message.value.chat.chatType != TelegramApi.Private
    requires req.message.value.text == Some("/link")
    ensures !Links(req) && !Welcomes(req)
  {
    TelegramApi.LinkIsPrivateOnly(req.message.value);
  }
}
