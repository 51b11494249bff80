/**
 * Build-time configuration of the backend. The two build profiles (debug and
 * release) are a parameter wherever the values differ.
 */
module Config {

  const MS_PER_MIN: nat := 1000 * 60
  const MS_PER_HOUR: nat := 60 * MS_PER_MIN
  const MS_PER_DAY: nat := 24 * MS_PER_HOUR
  const MS_PER_WEEK: nat := 7 * MS_PER_DAY

  /** How long a signin session lives after its last use. */
  const AUTH_TOKEN_SIGNIN_EXPIRES: nat := MS_PER_WEEK * 2

  /** Bytes of randomness in a session key. */
  const AUTH_TOKEN_KEY_LENGTH: nat := 16

  datatype Profile = Debug | Release

  /** Secret holding the token of the bot the backend talks to. */
  function EnvKeyTelegramBotToken(p: Profile): string {
    match p
    case Debug => "TELEGRAM_BOT_TOKEN_DEV"
    case Release => "TELEGRAM_BOT_TOKEN"
  }

  /** Secret holding the token that signs Telegram login data: the production bot in both profiles. */
  function EnvKeyTelegramAuthToken(p: Profile): string {
    match p
    case Debug => "TELEGRAM_BOT_TOKEN"
    case Release => "TELEGRAM_BOT_TOKEN"
  }

  const ENV_KEY_TELEGRAM_WEBHOOK_SECRET: string := "TELEGRAM_WEBHOOK_SECRET"
  const ENV_KEY_ADMIN_CODE: string := "ADMIN_CODE"
  const API_ROOT_PATH: string := ""
  const KV_BINDING_AUTH_TOKEN_SIGNIN: string := "KV-omi-auth-token-signin"

  function ApiDomain(p: Profile): string {
    match p
    case Debug => "https://terrier-direct-openly.ngrok-free.app"
    case Release => "https://omi-assist-api-prod.dakom.workers.dev"
  }

  /** Origins that receive an `Access-Control-Allow-Origin` header. */
  function AllowedOrigins(p: Profile): seq<string> {
    match p
    case Debug => ["http://localhost:8080", "http://127.0.0.1:8080"]
    case Release => ["https://omi-assist.pages.dev"]
  }

  function FrontendUrl(p: Profile): string {
    match p
    case Debug => "http://localhost::8080"
    case Release => "https://omi-assist.pages.dev"
  }

  /** Login data is checked against the same secret in both profiles. */
  lemma AuthTokenSecretSameInBothProfiles(p: Profile)
    ensures EnvKeyTelegramAuthToken(p) == EnvKeyTelegramAuthToken(Release) == "TELEGRAM_BOT_TOKEN"
  {
  }
}
