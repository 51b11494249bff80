/** The values the action API exchanges: where a message goes, and the action that sends it. */
module ActionTypes {
  import Uuid

  type ActionId = Uuid.Uuid
  type DestinationId = Uuid.Uuid

  /** `ActionDestinationKind`; both kinds carry the Telegram chat, read by `chat_id()`. */
  datatype DestinationKind = TelegramDm(chatId: int) | TelegramGroup(chatId: int)

  datatype ActionDestination = ActionDestination(id: DestinationId, name: string, kind: DestinationKind)

  datatype Action = Action(id: ActionId, destination: ActionDestination, prompt: string, message: string)
}
