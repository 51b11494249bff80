# omi-assist in Dafny

omi-assist connects Omi, a wearable that transcribes conversations, to Telegram. A user signs in with
the Telegram login widget. In the web dashboard they link Telegram chats as *destinations* and define
*actions*: a prompt, a message and a destination. When Omi's webhook delivers transcript segments that
contain an action's prompt, the backend sends that action's message to its destination chat.

This project models the core of the backend worker and the shared code, plus two pieces of the frontend.
There is one Dafny module per source file:

- **`KvAuth`**: the session store. It creates, validates, extends and deletes session tokens kept in
  a KV namespace.
- **`AuthUser`**: the request authenticator. It covers the admin override, the token id from header or
  cookie, the key, and the per-user token, and it decides which routes need what.
- **`AuthHandlers`**: Telegram-login register and signin, signout, and the session cookie.
- **`BackendRoute`** and **`FrontendRoute`**: the two route tables, with parsing and printing.
- **`TelegramApi`** and **`TelegramHandlers`**: bot command parsing and the Telegram webhook. The
  webhook covers `/start` and the link flow.
- **`OmiHandlers`**: the Omi webhook, selecting and delivering actions.
- **`DestinationDb`**, **`ActionDb`** and **`ActionHandlers`**: the destination and action tables and
  their endpoints.
- **`Accounts`**: the user, Omi and Telegram account tables.
- **`BackendLib`**: the fetch entry point, the status chosen for each error, and CORS.
- **`FrontendAuth`**: the frontend's auth state machine. Its phase is a `set_neq` signal.
- **`LandingAuth`**: the landing page's builder of the Telegram data-check string.

Helper modules:

- `Wrappers`: Option and Result.
- `Text`: the Rust string operations the core uses.
- `Crypto`: hex, URL-safe base64, UTF-8 and HMAC over a SHA-256 argument.
- `Uuid`: the simple and hyphenated form, and its parser.
- `Http`: requests and headers.
- `ApiResult` and `ActionTypes`: shared error and data types.
- `Config`: the build profiles and constants.
- `Cloudflare`: the `DbBool` conversions and the KV helpers.

Stores whose rows the worker changes are classes:

- `Kv<V>`, over a `map`;
- `AccountDb`, over three maps;
- `DestinationTable` and `ActionTable`, over sequences of rows.

Each store method is tied to a pure reference function, and the lemmas prove the properties of those
functions.

The clock, fresh UUIDs, random key bytes and SHA-256 are parameters. Messages the bot sends are
returned as a sequence of `SentMessage`.

## Model

| member | source | states |
|---|---|---|
| KvAuth.KeyTextShape | backend/src/kv/auth.rs:30-31 | a key drawn from 16 random bytes is 22 characters, all from the URL-safe base64 alphabet |
| KvAuth.Create | backend/src/kv/auth.rs:22-44 | stores the new record under the fresh id (simple UUID form), leaves every other id alone, and returns that id with the key |
| KvAuth.DeleteToken | backend/src/kv/auth.rs:46-48 | removes exactly the given id from the namespace |
| KvAuth.ValidateTransition | backend/src/kv/auth.rs:50-87 | the reference definition of `validate`. It succeeds iff a record exists under the id with the same kind and key and has not expired, and then yields the stored uid and user token. A missing id gives the missing-key KV error; an expired record gives "token expired". Other ids are never touched, and a record that stays keeps its uid, kind, key and user token |
| KvAuth.Validate | backend/src/kv/auth.rs:50-87 | the method's result and new namespace are those of ValidateTransition |
| KvAuth.CreateThenValidate | backend/src/kv/auth.rs:22-87 | a freshly created token validates with its own id and key until its expiry, yielding its user |
| KvAuth.CreateThenValidateLate | backend/src/kv/auth.rs:68-71 | the same token presented after its expiry is refused and its record is gone |
| KvAuth.SigninLastsFourteenDays | backend/src/config.rs:3-8 | a signin session created with the configured lifetime (two weeks of milliseconds built from the minute, hour, day and week constants) still validates exactly 14 days after creation, and one millisecond later is refused as expired and removed |
| KvAuth.DeleteIsSingleUse | backend/src/kv/auth.rs:73-76 | a validation that consumes the token succeeds at most once |
| KvAuth.ExtendKeepsSessionAlive | backend/src/kv/auth.rs:77-80 | after an extending validation the same id and key stay valid for the extension |
| KvAuth.ExtendOnlyMovesExpiry | backend/src/kv/auth.rs:77-80 | extending changes nothing in the record but its expiry |
| KvAuth.WrongKeyChangesNothing | backend/src/kv/auth.rs:64-66 | a wrong key is refused with "invalid key" and leaves the namespace unchanged, even when the record has expired |
| KvAuth.ExpiryIsInclusive | backend/src/kv/auth.rs:68-71 | a record is still accepted at the very millisecond it expires |
| KvAuth.DeleteRevokes | backend/src/kv/auth.rs:46-58 | after delete, the token no longer validates |
| Cloudflare.FromU32 | backend/src/helpers/cloudflare.rs:25-33 | only 0 and 1 convert (other values panic), each to itself |
| Cloudflare.BoolRoundTrip | backend/src/helpers/cloudflare.rs:9-23 | true is stored as 1 and false as 0, and reading the stored value back gives the bool that was written |
| Cloudflare.U32RoundTrip | backend/src/helpers/cloudflare.rs:9-33 | a stored 0 or 1 reads as false or true and converts back to itself |
| Cloudflare.Kv.Put | backend/src/helpers/cloudflare.rs:58-71 | the key maps to the new value, and nothing else changes |
| Cloudflare.Kv.TryGet | backend/src/helpers/cloudflare.rs:90-101 | Some of the stored value iff the key is present |
| Cloudflare.Kv.Get | backend/src/helpers/cloudflare.rs:103-111 | the stored value, or the missing-key KV error naming the namespace and key |
| Cloudflare.Kv.Delete | backend/src/helpers/cloudflare.rs:113-119 | removes exactly that key |
| Config.AuthTokenSecretSameInBothProfiles | backend/src/config.rs:17-29 | both profiles check login data against the same secret name |
| AuthUser.IsAdmin | backend/src/auth/user.rs:54-68 | a request is admin iff the admin code is configured and non-empty, and the request's admin-code header equals it |
| AuthUser.TrimAll | backend/src/auth/user.rs:132-133 | each cookie piece is trimmed, in order |
| AuthUser.CookieValue | backend/src/auth/user.rs:110-139 | the jar is split on `;` and each piece trimmed; the value is what follows the first `=` of the first piece that starts with the name (empty if that piece has no `=`), and empty when no piece starts with the name |
| AuthUser.TokenIdOfBrowser | backend/src/auth/user.rs:103-139 | a non-empty token-id header wins; without one, a browser that holds the session id in its token-id cookie, among any other cookies, is read as presenting that id |
| AuthUser.SessionCheck | backend/src/auth/user.rs:141-192 | an empty token id or key is refused with its own error. Success means the KV record accepts the id and key, the account is the stored one for the record's uid, and (unless the route only needs a partial token) the user token matches. No other KV entry changes |
| AuthUser.Authenticate | backend/src/auth/user.rs:48-193 | the admin override comes first: an admin naming a uid leaves the store unchanged. A non-admin on an admin route is refused with "not an admin" and changes nothing. In every other case the outcome is exactly that of SessionCheck on the request, so a success means the KV record accepted the request's token id and key |
| AuthUser.Validate | backend/src/auth/user.rs:48-193 | the method's result and new namespace are those of Authenticate |
| AuthUser.TryNewSpec | backend/src/auth/user.rs:26-46 | a route with no auth, or one that sets its own cookie, gives no user and changes nothing. Every failure is reported as NotAuthorized. Success holds iff Authenticate succeeds |
| AuthUser.TryNew | backend/src/auth/user.rs:26-46 | the method's result and new namespace are those of TryNewSpec |
| AuthUser.EmptyAdminCodeNeverAdmin | backend/src/auth/user.rs:54-68 | with no admin code configured, no request is admin |
| AuthUser.AdminImpersonates | backend/src/auth/user.rs:70-97 | an admin naming a well-formed uid acts as that user on any route, with the store unchanged: as the stored account when there is one, else as a made-up account with that id and an empty user token |
| AuthUser.AdminBadUidFails | backend/src/auth/user.rs:78-81 | an admin uid that is not a UUID fails and changes nothing |
| AuthUser.AdminWithoutUidNeedsSession | backend/src/auth/user.rs:98-192 | an admin without a uid header goes through the ordinary session checks |
| AuthUser.KeyNeverFromCookie | backend/src/auth/user.rs:155-164 | the key comes only from its header: taking the header away refuses the request whatever the cookie holds |
| AuthUser.RotatedTokenRevokes | backend/src/auth/user.rs:178-190 | once the user token is rotated, an old session is refused on every route that needs the full token, but still accepted where only the token is checked (signout) |
| AuthUser.SessionSlides | backend/src/auth/user.rs:167-174 | a successful check moves the session's expiry to two weeks after now and changes nothing else |
| AuthUser.CookieValueReadsBack | backend/src/auth/user.rs:110-139 | the value of a plain cookie name reads back from a browser's cookie header, behind any other cookies |
| AuthUser.CookieReadsBack | backend/src/auth/user.rs:110-139 | a session id sent as the token-id cookie is the token id the authenticator reads |
| AuthHandlers.ExpectedLoginHash | backend/src/handlers/auth.rs:194-207 | the hash a login must carry, the hex of HMAC-SHA256 keyed by SHA-256 of the bot token, consists of lower-case hex digits only |
| AuthHandlers.ValidateTelegramLogin | backend/src/handlers/auth.rs:194-215 | accepted iff the supplied hash equals the recomputed one exactly; otherwise NotAuthorized |
| AuthHandlers.UpperCaseHashRefused | backend/src/handlers/auth.rs:207-209 | the comparison is case-sensitive: a hash with an upper-case hex digit is refused |
| AuthHandlers.DataCheckIdOfLines | backend/src/handlers/auth.rs:43-45 | when the data check's `id=` line carries `n`, the intended id check accepts exactly `n` |
| AuthHandlers.AsWrittenAcceptsPrefixOfId | backend/src/handlers/auth.rs:43-45 | the substring check lets the data check of Telegram user 123 vouch for user 12 |
| AuthHandlers.RegisterGate | backend/src/handlers/auth.rs:33-58 | the checks run in the source's order: the data-check string must contain `id=<tg_uid>` (the substring test as written), else Telegram id mismatch; then the login hash; then the Omi id must be free; then the Telegram id. Registration proceeds iff all pass |
| AuthHandlers.RegisterAcceptsPrefixOfId | backend/src/handlers/auth.rs:43-58 | with a genuine login of Telegram user 123, a registration claiming Telegram id 12 passes every check of the gate, although the intended id check refuses it |
| AuthHandlers.Register | backend/src/handlers/auth.rs:33-97 | a gate refused as written changes nothing. Otherwise it adds the user under the fresh uid with a fresh user token, the Omi and Telegram accounts pointing at it, and a signin session with that same user token, and returns its key |
| AuthHandlers.SigninGate | backend/src/handlers/auth.rs:115-117 | the intended signin gate: a valid login hash and a data check whose `id` line is the Telegram id signing in; a refusal is a Telegram id mismatch or NotAuthorized |
| AuthHandlers.SigninGateAsWritten | backend/src/handlers/auth.rs:115 | signin as written lets a request through iff its hash equals the one recomputed from its data check, else NotAuthorized; the claimed Telegram id takes no part |
| AuthHandlers.AsWrittenSigninIgnoresTgUid | backend/src/handlers/auth.rs:115-117 | as written, a valid login of Telegram user 1 signs in as user 2 |
| AuthHandlers.SigninAccount | backend/src/handlers/auth.rs:115-118 | as written: succeeds iff the login hash is valid and the claimed Telegram id has an account whose user exists, and yields that user. A bad hash gives NotAuthorized; an unknown Telegram id, or an account whose user is missing, gives NeedToRegister naming it |
| AuthHandlers.SigninActsForClaimedId | backend/src/handlers/auth.rs:115-118 | a genuine login of Telegram user 1 sent with `tg_uid` 2 signs into the account linked to user 2, which the intended gate refuses |
| AuthHandlers.Signin | backend/src/handlers/auth.rs:106-138 | the account signed into is SigninAccount's. On success a fresh session carries the account's current user token, and its id, uid and key are returned; on failure nothing changes |
| AuthHandlers.NewSessionAuthenticates | backend/src/handlers/auth.rs:121-128 | a session just created for an account, presented with its id and key within two weeks, passes the session checks on any route as that account |
| AuthHandlers.Signout | backend/src/handlers/auth.rs:158-172 | deletes this session; with `everywhere` it also rotates the user token, and nothing else changes |
| AuthHandlers.SignoutRevokesSession | backend/src/handlers/auth.rs:164 | after signout the same token id is refused whatever key comes with it |
| AuthHandlers.SignoutEverywhereRevokesOthers | backend/src/handlers/auth.rs:166-169 | after signout everywhere, the user's other sessions are refused on full-token routes |
| AuthHandlers.CookiePair | backend/src/handlers/auth.rs:218-238 | a browser keeps the text before the first `;` of a Set-Cookie value |
| AuthHandlers.SigninCookieReadsBack | backend/src/handlers/auth.rs:218-232 | the signin cookie keeps `X-OMI-TOKEN-ID=<id>`, and the browser sends back exactly that id |
| AuthHandlers.DeletedCookieLeavesNoTokenId | backend/src/handlers/auth.rs:234-238 | the delete cookie sets `X-OMI-TOKEN-ID=` with an expiry in 1970, so a browser drops the cookie; the `Cookie` header made of its remaining cookies gives an empty token id |
| BackendRoute.ParseExact | shared/src/backend/route.rs:45-121 | the segments parse to a route iff they are exactly that route's segments |
| BackendRoute.RoundTrip | shared/src/backend/route.rs:45-178 | printing a route and splitting it on `/` parses back to the route |
| BackendRoute.TrailingEmptySegmentRejected | shared/src/backend/route.rs:45-55 | `info/` and `auth/signin/`, with a trailing `/`, match no route |
| BackendRoute.AuthKind | shared/src/backend/route.rs:70-86 | for each credential policy, exactly which routes have it |
| BackendRoute.SkipRootedPath | shared/src/backend/route.rs:41 | the corrected skip count drops the leading empty segment and the root's segments, exactly |
| BackendRoute.Skip | shared/src/backend/route.rs:41 | the corrected count is one for the leading empty segment of a pathname, plus the number of segments of a non-empty root |
| BackendRoute.Link | shared/src/backend/route.rs:62-68 | the link is the domain followed by the route's path below the root, the path LinkRoundTrip parses back |
| BackendRoute.LinkRoundTrip | shared/src/backend/route.rs:34-68 | a link to any route below any root parses back to that route |
| BackendRoute.SkipAgreesOnEmptyRoot | shared/src/backend/route.rs:41 | with the empty root the deployed build uses, both skip counts agree |
| BackendRoute.AsWrittenRejectsRootedLink | shared/src/backend/route.rs:41 | as written, a link below the root `foo` does not parse |
| FrontendRoute.FromSegments | shared/src/frontend/route.rs:24-44 | the empty path is the welcome page and `register/start` the register-start page, both with the `uid` parameter; `dashboard` alone is the actions page; any other dashboard kind is NotFound(BadUrl) |
| FrontendRoute.ParseExact | shared/src/frontend/route.rs:24-44 | for every arm of `from_url`: the segments parse to a route iff they are exactly that route's segments (with the `uid` parameter where the page takes it), and exactly the segment lists no arm names are NotFound(BadUrl) |
| FrontendRoute.LinkUrl | shared/src/frontend/route.rs:47-55 | the link never ends in `//` |
| FrontendRoute.RequiresAuthOfUrl | shared/src/frontend/route.rs:11-64 | a URL's page needs a login iff its segments are `dashboard`, `dashboard/actions` or `dashboard/destinations` |
| FrontendRoute.ParseSegments | shared/src/frontend/route.rs:24-97 | a path-only route's segments parse back to it |
| FrontendRoute.PathRoundTrip | shared/src/frontend/route.rs:11-97 | a path-only route printed below any root parses back to itself |
| FrontendRoute.LinkUrlOfPathOnly | shared/src/frontend/route.rs:47-55 | a path-only route's link is never cut by the trim |
| FrontendRoute.WelcomeLink | shared/src/frontend/route.rs:25-73 | the welcome page links to the bare domain, and the bare path is the welcome page |
| FrontendRoute.UidCarried | shared/src/frontend/route.rs:22-33 | the `uid` query parameter is carried into the register-start page |
| FrontendRoute.RootedDashboard | shared/src/frontend/route.rs:18 | below the root `foo`, a path whose segments are `dashboard, actions` is read as the actions page with the corrected count and as NotFound with the as-written one |
| FrontendRoute.AsWrittenLosesRootedPage | shared/src/frontend/route.rs:18 | as written, the dashboard below a root is NotFound |
| TelegramApi.ParseCommand | shared/src/api/telegram.rs:39-71 | no text means unsupported. In a private chat the first word selects `/start`, `/link` or a bad command. Elsewhere exactly `/omi link` links, `/omi` followed by anything else is a bad command, and everything else is unknown |
| TelegramApi.BlankTextIsUnknown | shared/src/api/telegram.rs:43-67 | blank text is an unknown command in any chat |
| TelegramApi.PrivateFirstWordDecides | shared/src/api/telegram.rs:47-52 | in a private chat whatever follows the first word is ignored |
| TelegramApi.GroupLink | shared/src/api/telegram.rs:53-64 | in a group, `/omi link` with any whitespace around it links; one more word makes it a bad command |
| TelegramApi.LinkIsPrivateOnly | shared/src/api/telegram.rs:47-67 | `/link` in a group is an unknown command |
| TelegramHandlers.FromRequest | backend/src/handlers/telegram.rs:66-86 | a request needs the secret header, a non-empty configured secret and an exact match; only then is the body read |
| TelegramHandlers.AcceptedRequestHasSecret | backend/src/handlers/telegram.rs:72-81 | an accepted request carried exactly the configured non-empty secret |
| TelegramHandlers.EmptySecretRefusesAll | backend/src/handlers/telegram.rs:77 | an empty configured secret refuses every request |
| TelegramHandlers.ChatKind | backend/src/handlers/telegram.rs:149-156 | a private chat gives a DM destination and any other chat a group, both with the chat's id |
| TelegramHandlers.DestinationName | backend/src/handlers/telegram.rs:158-167 | the sender's name (with `(@username)` when present) for a DM; the chat title, or `Group <id>`, for a group |
| TelegramHandlers.GroupName | backend/src/handlers/telegram.rs:164 | the fallback group name reads back the chat id |
| TelegramHandlers.LinkDecision | backend/src/handlers/telegram.rs:109-170 | unregistered iff the sender has no Telegram account; already linked iff the user has a destination with this chat id; a new link carries the chat's kind and name |
| TelegramHandlers.Refreshed | backend/src/handlers/telegram.rs:122-136 | only the sender's account changes, and only when its names are stale: it then takes the sender's first name, and the sender's username when one is given; a username the sender has dropped stays on record |
| TelegramHandlers.RefreshSettlesUnlessUsernameDropped | backend/src/handlers/telegram.rs:122-136 | after one refresh the names are stale again iff the sender has no username while one is on record; a second refresh changes nothing |
| TelegramHandlers.CorrectedRefreshSettles | backend/src/db/user.rs:171-179 | with the corrected rename a refreshed account is never stale for its sender |
| TelegramHandlers.HandleLink | backend/src/handlers/telegram.rs:103-180 | the reply, the destination rows and the accounts are those of LinkDecision, Linking and Refreshed |
| TelegramHandlers.Handle | backend/src/handlers/telegram.rs:27-63 | `/start` sends the welcome and changes nothing; the link commands link; anything else is acknowledged with no effect; users and Omi accounts never change |
| TelegramHandlers.NewChatIsLinked | backend/src/handlers/telegram.rs:138-170 | linking a new chat adds one row, owned by the user, of the chat's kind |
| TelegramHandlers.LinkingTwiceLinksOnce | backend/src/handlers/telegram.rs:138-147 | a second link of the same chat is answered "already linked" and adds nothing |
| TelegramHandlers.UnregisteredChangesNothing | backend/src/handlers/telegram.rs:109-120 | an unregistered sender is told to register, and nothing is stored |
| TelegramHandlers.BotsAreIgnored | backend/src/handlers/telegram.rs:31-34 | a bot's message neither welcomes nor links |
| TelegramHandlers.GroupNeedsOmiLink | shared/src/api/telegram.rs:53-67 | `/link` in a group neither welcomes nor links |
| OmiHandlers.Selected | backend/src/handlers/omi.rs:33-45 | an action is selected iff some segment's lower-cased text contains its lower-cased prompt |
| OmiHandlers.SelectedIsSubsequence | backend/src/handlers/omi.rs:33-45 | the selection keeps the listing's order |
| OmiHandlers.HitIgnoresCase | backend/src/handlers/omi.rs:35-40 | a prompt hits iff its lower-cased form does |
| OmiHandlers.SelectActions | backend/src/handlers/omi.rs:31-45 | the loop's result is Selected |
| OmiHandlers.MessageText | backend/src/handlers/omi.rs:67-73 | the message starts with `message from <first name>` and ends with `: <action message>` |
| OmiHandlers.SendAll | backend/src/handlers/omi.rs:66-80 | one message per selected action, in order, to that action's chat |
| OmiHandlers.Handle | backend/src/handlers/omi.rs:23-86 | no segments or no hit sends nothing; an unknown Omi id gives NoSuchUser; a user without a Telegram account gives NeedToRegister; when an action is selected and the user has a Telegram account the handler succeeds, and on success the selected actions are delivered, in order, from one of the user's Telegram accounts |
| OmiHandlers.QueryGet | backend/src/handlers/omi.rs:97 | the value of the first pair with that name, or none |
| OmiHandlers.FromRequest | backend/src/handlers/omi.rs:89-107 | a missing `uid` gives "uid not found", a bad body its parse error, and otherwise the request |
| DestinationDb.KindCode | backend/src/db/destination.rs:91-94 | DM is stored as 1, group as 2 |
| DestinationDb.Decode | backend/src/db/destination.rs:18-31 | the fields are copied, and the kind code with the chat id gives the kind |
| DestinationDb.DecodeEncode | backend/src/db/destination.rs:18-111 | decoding an inserted row gives back its fields and kind |
| DestinationDb.DecodeInjective | backend/src/db/destination.rs:18-31 | two rows of the same owner with known kind codes that decode to the same destination are the same row |
| DestinationDb.Owned | backend/src/db/destination.rs:113-126 | exactly the rows that belong to the user |
| DestinationDb.FindOwned | backend/src/db/destination.rs:48-63 | the index of a row with that id and that owner, or none iff there is none |
| DestinationDb.DestinationTable.LoadWithUserId | backend/src/db/destination.rs:48-63 | the row when the user owns it, else the no-such-destination error |
| DestinationDb.DestinationTable.ExistsByUserChatId | backend/src/db/destination.rs:65-82 | true iff one of the user's destinations has that chat id |
| DestinationDb.DestinationTable.Insert | backend/src/db/destination.rs:84-111 | appends the encoded row |
| DestinationDb.DestinationTable.List | backend/src/db/destination.rs:113-126 | the user's destinations, decoded |
| DestinationDb.ListIsExactlyOwned | backend/src/db/destination.rs:113-126 | a destination is listed iff an owned row decodes to it |
| DestinationDb.InsertedIsLinked | backend/src/db/destination.rs:65-111 | after insert, the chat is linked for that user |
| ActionDb.DeleteOwned | backend/src/db/action.rs:51-69 | removes exactly the rows with that id whose destination the user owns |
| ActionDb.JoinOne | backend/src/db/action.rs:84-114 | the records of one action row: one per destination row with its destination id that the user owns, and none iff the user owns no such destination |
| ActionDb.Joined | backend/src/db/action.rs:71-116 | an action is listed iff it is a joined record of one of the rows |
| ActionDb.ActionTable.Insert | backend/src/db/action.rs:33-49 | appends the row |
| ActionDb.ActionTable.Delete | backend/src/db/action.rs:51-69 | the rows become DeleteOwned |
| ActionDb.ActionTable.List | backend/src/db/action.rs:71-116 | the listing is Joined |
| ActionDb.SubsequenceKeepsKeys | backend/src/db/action.rs:51-69 | deletion keeps action ids unique |
| ActionDb.DeleteNotOwnedChangesNothing | backend/src/db/action.rs:51-69 | deleting an action the user does not own changes nothing |
| ActionDb.DeleteIsScoped | backend/src/db/action.rs:51-69 | rows with another id are never removed, and a row with this id whose destination the user owns always is |
| ActionDb.ListIsExactlyOwned | backend/src/db/action.rs:71-116 | an action on a destination the user owns is listed with that destination; with destination ids unique, an action on another user's destination is not |
| ActionHandlers.ListActionDestinations | backend/src/handlers/action.rs:19-27 | a destination is listed iff an owned row decodes to it |
| ActionHandlers.AddAction | backend/src/handlers/action.rs:37-63 | a destination the user does not own is refused and nothing is inserted; otherwise one row is appended and the returned action carries the request's fields |
| ActionHandlers.DeleteAction | backend/src/handlers/action.rs:72-78 | the rows become DeleteOwned |
| ActionHandlers.ListActions | backend/src/handlers/action.rs:88-94 | the listing is Joined |
| ActionHandlers.AddedActionIsListed | backend/src/handlers/action.rs:37-94 | an added action appears in its owner's listing with the destination it was added to |
| ActionHandlers.JoinedAppend | backend/src/db/action.rs:71-116 | the listing of a table with one more row is the old listing followed by that row's records |
| ActionHandlers.AddedActionIsPrivate | backend/src/handlers/action.rs:37-94 | with destination ids unique, an added action leaves every other user's listing unchanged |
| Accounts.Renamed | backend/src/db/user.rs:151-181 | the corrected rename: both stored names become the sender's, a dropped username included; id and owner are kept |
| Accounts.RenamedAsWritten | backend/src/db/user.rs:171-179 | `update_name` as written: the first name is always written, the username only when one is given (otherwise the stored one stays); id and owner are kept |
| Accounts.AsWrittenKeepsDroppedUsername | backend/src/db/user.rs:171-179 | as written, a sender who dropped their username keeps the old one on record |
| Accounts.AccountDb.LoadUser | backend/src/db/user.rs:13-24 | the stored user, or NeedToRegister |
| Accounts.AccountDb.InsertUser | backend/src/db/user.rs:41-51 | adds the user; other tables unchanged |
| Accounts.AccountDb.UpdateUserToken | backend/src/db/user.rs:53-63 | replaces the user token; a missing user changes no row |
| Accounts.AccountDb.LoadOmi | backend/src/db/user.rs:74-85 | the stored Omi account, or NeedToRegister |
| Accounts.AccountDb.OmiExists | backend/src/db/user.rs:87-100 | true iff the Omi id is stored |
| Accounts.AccountDb.InsertOmi | backend/src/db/user.rs:102-112 | adds the Omi account; other tables unchanged |
| Accounts.AccountDb.LoadTelegram | backend/src/db/user.rs:125-136 | the stored Telegram account, or NeedToRegister |
| Accounts.AccountDb.LoadTelegramByUserId | backend/src/db/user.rs:138-149 | fails iff no Telegram account belongs to the user; otherwise one of theirs |
| Accounts.AccountDb.UpdateTelegramName | backend/src/db/user.rs:151-181 | an existing account becomes RenamedAsWritten of itself, a missing id changes nothing, and the user and Omi tables are untouched |
| Accounts.AccountDb.TelegramExists | backend/src/db/user.rs:183-196 | true iff the Telegram id is stored |
| Accounts.AccountDb.InsertTelegram | backend/src/db/user.rs:198-213 | adds the account with the placeholder name `user <id>` and no username |
| BackendLib.StatusOf | backend/src/lib.rs:43-58 | 401 for auth errors; 404 for an unknown Omi user; 200 for no actions; 400 for body errors; 500 otherwise, each iff |
| BackendLib.StatusIsErrorUnlessNoActions | backend/src/lib.rs:43-58 | every error gets one of five statuses, and only "no actions" reads as a success |
| BackendLib.RequestOrigin | backend/src/lib.rs:29-32 | the origin header, falling back to the referrer |
| BackendLib.CorsHeaders | backend/src/lib.rs:69-87 | the origin is echoed iff allowed; the four fixed headers are set; other headers are untouched |
| BackendLib.OriginExposedIffAllowed | backend/src/lib.rs:72-76 | on a fresh response the origin is exposed exactly when it is allowed |
| BackendLib.CorsIdempotent | backend/src/lib.rs:69-87 | applying CORS twice is applying it once |
| BackendLib.ReleaseAllowsOnlyFrontend | backend/src/config.rs:35 | a release build allows only the deployed frontend's origin |
| BackendLib.Response.ApplyCors | backend/src/lib.rs:69-87 | only the headers change, to CorsHeaders |
| BackendLib.Fetch | backend/src/lib.rs:26-67 | OPTIONS gives 200 with an empty body; a routed response passes through; an error becomes JSON with StatusOf; all leave with CORS |
| FrontendAuth.WithPhase | frontend/src/auth.rs:61 | `set_neq`: the phase changes, and is announced, only if it differs |
| FrontendAuth.Cleared | frontend/src/auth.rs:51-62 | unauthenticated, no key or uid, the stored key removed, other storage kept |
| FrontendAuth.SignedIn | frontend/src/auth.rs:77-91 | authenticated with that uid and key, and the key stored |
| FrontendAuth.Checked | frontend/src/auth.rs:93-105 | a confirmed uid authenticates; a failure unauthenticates; the key is kept either way |
| FrontendAuth.SignedOut | frontend/src/auth.rs:64-68 | cleared only when the server confirmed |
| FrontendAuth.Auth.Clear | frontend/src/auth.rs:51-62 | the state becomes Cleared |
| FrontendAuth.Auth.Signout | frontend/src/auth.rs:64-68 | the state becomes SignedOut, and the server's answer is returned |
| FrontendAuth.Auth.OnSignin | frontend/src/auth.rs:77-91 | the state becomes SignedIn |
| FrontendAuth.Auth.Check | frontend/src/auth.rs:93-105 | the state becomes Checked |
| FrontendAuth.ClearIsIdempotent | frontend/src/auth.rs:51-62 | clearing twice is clearing once |
| FrontendAuth.SigninIsIdempotent | frontend/src/auth.rs:77-91 | signing in again with the same uid and key changes nothing |
| FrontendAuth.CheckIsIdempotent | frontend/src/auth.rs:93-105 | a repeated check with the same answer changes nothing |
| FrontendAuth.SignoutForgetsSignin | frontend/src/auth.rs:64-91 | a confirmed signout after signin forgets the key in memory and in storage; a refused one keeps it |
| FrontendAuth.FailedCheckKeepsKey | frontend/src/auth.rs:93-105 | a failed check leaves the key in place though the phase is Unauthenticated |
| FrontendAuth.AnnouncedPhasesAlternate | frontend/src/auth.rs:61 | every announced phase differs from the one before it |
| LandingAuth.SortByKey | frontend/src/page/landing/auth.rs:72-73 | the entries sorted by key, the same entries |
| LandingAuth.SortedUnique | frontend/src/page/landing/auth.rs:72-73 | two key-sorted lists of the same entries are equal, so the map's order does not matter |
| LandingAuth.LastValue | frontend/src/page/landing/auth.rs:62-69 | the value of the last pair with that key, or none iff there is no such pair |
| LandingAuth.ParamsOf | frontend/src/page/landing/auth.rs:50-70 | every key but `hash`, each with its last value |
| LandingAuth.SortedParams | frontend/src/page/landing/auth.rs:72-73 | the map's entries collected in any order and sorted are SortedEntries |
| LandingAuth.Collect | frontend/src/page/landing/auth.rs:45-70 | after the pass over the query pairs, `hash` and `id` hold the last value given for each, and the map holds every key but `hash` with its last value |
| LandingAuth.New | frontend/src/page/landing/auth.rs:28-88 | an `id` that is not an `i64` is reported first, then a missing hash, then a missing id; success holds iff both are present and the id parses, and its data-check string is the sorted `key=value` lines |
| LandingAuth.HashIsNotSigned | frontend/src/page/landing/auth.rs:62-69 | the hash takes no part in what it signs |
| LandingAuth.LastValueIsSigned | frontend/src/page/landing/auth.rs:62-69 | a repeated key is signed once, with its last value |
| LandingAuth.SignedEntryIsAPair | frontend/src/page/landing/auth.rs:50-70 | every signed entry is one of the query pairs |
| LandingAuth.IdLineIsRead | frontend/src/page/landing/auth.rs:75-79 | in key-sorted entries without line feeds, the backend's `id=` reader finds the `id` entry's value |
| LandingAuth.BackendReadsSentId | frontend/src/page/landing/auth.rs:75-87 | the backend's intended id check reads back the user id the landing page sends |
| Crypto.HexEncode | backend/src/handlers/auth.rs:207 | twice as many characters as bytes, all lower-case hex digits |
| Crypto.HexRoundTrip | backend/src/handlers/auth.rs:207 | hex decoding inverts hex encoding |
| Crypto.Base64UrlNoPad | backend/src/kv/auth.rs:30-31 | ceil(4n/3) characters for n bytes, all from the URL-safe alphabet, with no padding |
| Uuid.ParseSimple | backend/src/auth/user.rs:78-81 | the simple form parses back to its UUID |
| Uuid.ParseHyphenated | backend/src/auth/user.rs:78-81 | the hyphenated form parses back to its UUID |
| Uuid.SimpleInjective | backend/src/kv/auth.rs:29 | distinct UUIDs have distinct simple forms, so fresh ids do not collide |
| Text.Words | shared/src/api/telegram.rs:44 | `split_whitespace`: every piece is a non-empty word with no whitespace in it |
| Text.ParseIntToString | frontend/src/page/landing/auth.rs:81 | a printed `i64` parses back to itself |

## Left out

- Store failures: D1 and KV requests always succeed in the model. The one exception is that a missing KV key gives the KV error. The `?` paths taken on a failed query are therefore not modelled.
- Telegram delivery: a `send_message` call always succeeds. Its response and its failures are not modelled.
- JSON, serde and request bodies are outside the model. Every handler receives its request already parsed, or a parse error as a parameter.
- OmiHandlers.Handle: the `NoActions` branch (backend/src/handlers/omi.rs:46-50) is unreachable. The action listing cannot fail when queries always succeed. `StatusOf` still gives that error its status.
- TelegramHandlers.Handle: the fallback arm that passes on any other bot error cannot arise. The command parser yields only unknown, bad and unsupported commands.
- TelegramHandlers.HandleLink: a failed `update_name` is only logged in the source. In the model the update always succeeds.
- Destination `load` (backend/src/db/destination.rs:35-46) and action `_load` (backend/src/db/action.rs:20-31) have no caller in the core and are not modelled.
- `AuthCheck` (backend/src/handlers/auth.rs:188-191) is not modelled. It only echoes the authenticated uid.
- The frontend `try_clone_uid` and `try_clone_token_key` getters (frontend/src/auth.rs:70-75) are not modelled.
- Cloudflare.FromU32: the source panics on any stored value but 0 and 1 (backend/src/helpers/cloudflare.rs:25-33). The model makes `v == 0 || v == 1` a precondition instead of modelling the panic.
- `D1ResultExt::into_result` (backend/src/helpers/cloudflare.rs:49-56) is not modelled. It only turns a failed D1 statement into an error, and D1 statements always succeed in the model.
- Unset secrets: `env.secret(..).unwrap()` panics in the source. The model makes the secret a precondition instead (`LoginSecretConfigured`, `WebhookSecretConfigured`).
- A header value that is not visible ASCII is read by the source as empty (`to_str().unwrap_or_default()`). The model's headers are always strings.
- Clock, randomness and UUID generation are parameters: `now`, the key bytes, and the fresh uid, token and destination/action ids. Freshness is a precondition.
- SHA-256 is a function parameter, and only its use through HMAC is modelled.
- A `HashMap` iterates in an unspecified order, modelled by an arbitrary enumeration. Every enumeration is proved to sort to the same list.
- `to_lowercase` is modelled as ASCII lower-casing only.
- Chat ids and Telegram user ids are unbounded integers. The data check's `id` is still parsed as an `i64`, which is modelled.
- Accounts.AccountDb.LoadTelegram, TelegramExists, InsertTelegram, UpdateTelegramName and DestinationDb.DestinationTable.ExistsByUserChatId and Insert compare Telegram ids and chat ids exactly. The source binds them to D1 as `f64` (`JsValue::from_f64(id as f64)`, backend/src/db/user.rs:131-206 and backend/src/db/destination.rs:75, 104), which rounds any id beyond 2^53, so two such ids would address one row. The model leaves this rounding out because the Telegram Bot API gives user and chat ids at most 52 significant bits, so no real id is rounded.
- `LoadTelegramByUserId` returns some account of the user. SQL gives no row order, so which one is not specified.
- DestinationDb.Owned and ActionDb.Joined keep table order. The source's `SELECT`s (backend/src/db/destination.rs:113-126, backend/src/db/action.rs:84-99) have no `ORDER BY`, so D1 may list rows, and `OmiHandlers.SendAll` may send, in another order. The model fixes insertion order.
- Omi segment timings (floating point) and speaker fields are dropped. Only segment text is used.
- The router beyond the route tables (`handle_route`) is the `routed` argument of `Fetch`.
- Logging and the frontend's async loader are not modelled.
- Frontend window and URL errors (`web_sys::Url::new(..).unwrap()`, a missing `window`) are not modelled. The landing builder receives the query pairs.

## Findings

The auth handlers, the Telegram webhook and the account store model the code as written, so the findings about them hold of the modelled handlers. The route parsers are modelled in both forms, and no handler calls them. Each corrected member stands beside the as-written one, with the intended property proved about it.

| source | as written | input that shows it | evidently intended | confidence | as-written member | corrected member |
|---|---|---|---|---|---|---|
| shared/src/backend/route.rs:41 | skips one segment per `/` in the root path plus one, so a root `foo` (no `/`) skips only the leading empty segment | `Route::link` of the info route with root `foo` gives the path `/foo/info`, whose segments after the skip are `foo, info` and match no route | skip the leading empty segment and every segment of the root | medium, not executed | BackendRoute.AsWrittenRejectsRootedLink | BackendRoute.LinkRoundTrip |
| shared/src/frontend/route.rs:18 | the same count on the frontend | the pathname `/foo/dashboard/actions` with root `foo` is read as NotFound | the dashboard page | medium, not executed | FrontendRoute.AsWrittenLosesRootedPage | FrontendRoute.PathRoundTrip |
| backend/src/handlers/auth.rs:43-45 | register checks only that the data-check string contains `id=<tg_uid>` | a login of Telegram user 123 (`id=123`) passes the check for `tg_uid` 12 | the data check's own `id` line equals `tg_uid` | high, not executed | AuthHandlers.AsWrittenAcceptsPrefixOfId | AuthHandlers.DataCheckIdOfLines |
| backend/src/handlers/auth.rs:115-117 | signin validates the login hash but loads the account of the request's `tg_uid`, never comparing the two | a valid login of Telegram user 1 sent with `tg_uid` 2 signs in as user 2 | the data check must vouch for `tg_uid` | high, not executed | AuthHandlers.AsWrittenSigninIgnoresTgUid | AuthHandlers.SigninGate |
| backend/src/db/user.rs:171-179 | `update_name` with no username updates only the first name | a sender whose username `bob` is on record and who has since dropped it keeps `bob` on record, so every later link message refreshes the names again | the stored username becomes none | medium, not executed | Accounts.AsWrittenKeepsDroppedUsername | Accounts.Renamed |
