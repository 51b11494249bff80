/**
 * The Telegram update payload the bot webhook receives and the parser that
 * turns a message's text into a bot command. Words are separated as by
 * `split_whitespace`; in a private chat the first word selects the command,
 * in a group only the exact words `/omi link` do.
 */
module TelegramApi {
  import opened Wrappers
  import Text
  import ApiResult

  datatype ChatType = Private | Group | SuperGroup | Channel

  datatype TelegramUser = TelegramUser(id: int, isBot: bool, firstName: string, username: Option<string>)

  datatype TelegramChat = TelegramChat(
    id: int,
    chatType: ChatType,
    title: Option<string>,
    username: Option<string>,
    firstName: Option<string>,
    lastName: Option<string>)

  datatype TelegramMessage = TelegramMessage(
    messageId: int,
    threadId: Option<int>,
    from: TelegramUser,
    chat: TelegramChat,
    date: nat,
    text: Option<string>)

  /** An update (https://core.telegram.org/bots/api#update); only `message` is acted on. */
  datatype WebHookRequest = WebHookRequest(
    updateId: int,
    message: Option<TelegramMessage>,
    editedMessage: Option<TelegramMessage>,
    channelPost: Option<TelegramMessage>,
    editedChannelPost: Option<TelegramMessage>)

  /** A text message the bot sends (`sendMessage`) to a chat. */
  datatype SentMessage = SentMessage(chatId: int, text: string)

  datatype OmiCommand = LinkDm | LinkGroup

  datatype BotCommand = Start | Omi(command: OmiCommand)

  type BotError = ApiResult.TelegramBotError

  /** `TryFrom<&TelegramMessage> for TelegramBotCommand` */
  function ParseCommand(message: TelegramMessage): (r: Result<BotCommand, BotError>)
    ensures message.text.None? ==> r == Err(ApiResult.UnsupportedMessage)
    ensures message.text.Some? && Text.Words(message.text.value) == [] ==>
      r == Err(ApiResult.UnknownCommand(message.text.value))
    ensures message.text.Some? && r.Err? ==>
      r.error in {ApiResult.UnknownCommand(message.text.value), ApiResult.OmiCommand(message.text.value)}
    ensures r.Ok? ==> message.text.Some? && |Text.Words(message.text.value)| > 0
    // a private chat: the first word decides, the rest is ignored
    ensures message.chat.chatType == Private && message.text.Some? && |Text.Words(message.text.value)| > 0 ==>
      var first := Text.Words(message.text.value)[0];
      (first == "/start" ==> r == Ok(Start))
      && (first == "/link" ==> r == Ok(Omi(LinkDm)))
      && (first != "/start" && first != "/link" ==> r == Err(ApiResult.OmiCommand(message.text.value)))
    // any other chat: exactly `/omi link`
    ensures message.chat.chatType != Private && message.text.Some? ==>
      var words := Text.Words(message.text.value);
      (r == Ok(Omi(LinkGroup)) <==> words == ["/omi", "link"])
      && (r == Err(ApiResult.OmiCommand(message.text.value)) <==>
            (|words| > 1 && words[0] == "/omi" && words[1..] != ["link"]))
      && r != Ok(Start) && r != Ok(Omi(LinkDm))
  {
    match message.text
    case None => Err(ApiResult.UnsupportedMessage)
    case Some(text) =>
      var parts := Text.Words(text);
      if |parts| > 0 && message.chat.chatType == Private then
        if parts[0] == "/start" then Ok(Start)
        else if parts[0] == "/link" then Ok(Omi(LinkDm))
        else Err(ApiResult.OmiCommand(text))
      else if |parts| > 0 && parts[0] == "/omi" && |parts| > 1 then
        if parts[1..] == ["link"] then Ok(Omi(LinkGroup))
        else Err(ApiResult.OmiCommand(text))
      else Err(ApiResult.UnknownCommand(text))
  }

  /** A text that is empty or all whitespace is an unknown command, in any chat. */
  lemma {:induction false} BlankTextIsUnknown(message: TelegramMessage)
    requires message.text.Some?
    requires forall i :: 0 <= i < |message.text.value| ==> Text.IsWhitespace(message.text.value[i])
    ensures ParseCommand(message) == Err(ApiResult.UnknownCommand(message.text.value))
  {
    Text.WordsEmpty(message.text.value);
  }

  /** In a private chat, a text that starts with the word `command` is parsed the same whatever follows it. */
  lemma {:induction false} PrivateFirstWordDecides(message: TelegramMessage, lead: string, command: string, rest: string)
    requires message.chat.chatType == Private
    requires forall i :: 0 <= i < |lead| ==> Text.IsWhitespace(lead[i])
    requires Text.IsWord(command) && (rest == [] || Text.IsWhitespace(rest[0]))
    requires message.text == Some(lead + command + rest)
    ensures command == "/start" ==> ParseCommand(message) == Ok(Start)
    ensures command == "/link" ==> ParseCommand(message) == Ok(Omi(LinkDm))
    ensures command != "/start" && command != "/link" ==>
      ParseCommand(message) == Err(ApiResult.OmiCommand(lead + command + rest))
  {
    Text.WordsFront(lead, command, rest);
  }

  /**
   * In a group, `/omi` and `link` with any whitespace around and between
   * them link the group; one more word after them makes it a bad command.
   */
  lemma {:induction false} GroupLink(message: TelegramMessage, lead: string, gap: string, tail: string, extra: string)
    requires message.chat.chatType != Private
    requires forall i :: 0 <= i < |lead| ==> Text.IsWhitespace(lead[i])
    requires |gap| > 0 && forall i :: 0 <= i < |gap| ==> Text.IsWhitespace(gap[i])
    requires forall i :: 0 <= i < |tail| ==> Text.IsWhitespace(tail[i])
    requires message.text == Some(lead + "/omi" + gap + "link" + tail + extra)
    ensures extra == [] ==> ParseCommand(message) == Ok(Omi(LinkGroup))
    ensures Text.IsWord(extra) && |tail| > 0 ==> ParseCommand(message) == Err(ApiResult.OmiCommand(message.text.value))
  {
    var after := gap + "link" + tail + extra;
    assert lead + "/omi" + gap + "link" + tail + extra == lead + "/omi" + after;
    assert Text.IsWord("/omi");
    Text.WordsFront(lead, "/omi", after);
    assert Text.IsWord("link");
    var last := tail + extra;
    assert after == gap + "link" + last;
    if extra == [] || |tail| > 0 {
      Text.WordsFront(gap, "link", last);
      if extra == [] {
        assert last == tail;
        Text.WordsEmpty(tail);
      } else if Text.IsWord(extra) {
        assert last == tail + extra + [];
        Text.WordsFront(tail, extra, []);
        assert Text.Words([]) == [];
      }
    }
  }

  /** `/link` links a private chat only: in a group it is an unknown command. */
  lemma {:induction false} LinkIsPrivateOnly(message: TelegramMessage)
    requires message.chat.chatType != Private && message.text == Some("/link")
    ensures ParseCommand(message) == Err(ApiResult.UnknownCommand("/link"))
  {
    assert Text.IsWord("/link");
    Text.WordsFront("", "/link", "");
    assert "" + "/link" + "" == "/link";
    assert Text.Words("") == [];
  }
}
