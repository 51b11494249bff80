/** The error vocabulary shared by backend and frontend (`ApiError` and the errors it wraps). */
module ApiResult {
  import opened Wrappers

  datatype AuthError =
    | OmiIdAlreadyExists
    | TelegramIdAlreadyExists
    | TelegramIdMismatch
    | NotAuthorized
    | InvalidSignin
    | TermsNotAgreed

  /** Errors of the Telegram bot side; the parser of bot commands reports through it. */
  datatype TelegramBotError =
    | Unauthorized
    | Internal(text: string)
    | UnknownCommand(text: string)
    | OmiCommand(text: string)
    | UnsupportedMessage

  /** Errors of the voice-assistant webhook. */
  datatype OmiHookError = NoSuchUser(omiUid: string) | NoActions(omiUid: string)

  datatype ApiError =
    | Auth(auth: AuthError)
    | Unknown(message: string)
    | Parse(message: string)
    | ParseBody(message: string)
    | Telegram(telegram: TelegramBotError)
    | Omi(omi: OmiHookError)
    | Kv(message: string)
    | Db(message: string)
    | MissingBody(message: string)

  type ApiResult<T> = Result<T, ApiError>
}
