# Fameliza authentication gateway, modelled in Dafny

This project models the authentication gateway of the Fameliza agent service.
The gateway has two credential paths:

- A Discord OAuth login establishes a browser session. An allow-list of user
  ids and an allow-list of guild roles decide whether a Discord profile is
  accepted.
- A long-lived bearer API key is issued to a caller who already has a session.
  The key is presented as `Authorization: Bearer <key>`.

A path-classifying middleware puts every `/api/` request behind "session, or
else a valid key". The `/auth/*` route handlers turn the authentication state
into a 401, 500, redirect or JSON reply.

Files (one Dafny module each):

- `text.dfy` (`Text`): the JavaScript string operations the source relies on.
  These are `startsWith`, `split(",")` with its inverse `join`, `trim`, and the
  `process.env.X || default` fallback.
- `encoding.dfy` (`Encoding`): Node's lower-case hex encoding with its decoder,
  and UTF-8, which is how bcrypt sees a string.
- `auth.dfy` (`Auth`): `src/middleware/auth.ts`. It holds the allow-list
  configuration, the Discord verify callback as a pure accept/deny function,
  the identity session codec, and the `requireAuth` and `optionalAuth` guards.
- `api_key.dfy` (`ApiKey`): `src/middleware/apiKey.ts`. The module-level
  `apiKeys` map becomes class `ApiKeyRegistry`. Its `entries` field is a
  sequence of key/record pairs in insertion order, which is the order
  `Map.entries()` visits. `generateApiKey` and `validateApiKey` are methods
  that update it. The two bearer guards are methods that call into it.
- `plugin_auth.dfy` (`PluginAuth`): `src/plugin-auth.ts`. It holds the session
  options, the path classifier and the middleware that applies it, and the
  route handlers as functions that return the response they write. The
  `api-key` handler is a method, because it issues a key.

bcrypt, randomness and the clock are abstracted:

- bcrypt is the registry's `hash` function (`string -> string`). A stored
  record matches a candidate when its `keyHash` equals `hash(candidate)`.
- `crypto.randomBytes(32)` is a 32-byte parameter.
- `new Date()` is a natural-number clock reading (`now`), or a timestamp string
  for `/health`.

Points of the code's behaviour a reader might not expect, which the model
keeps:

- The `apiKeys` map is keyed by the plaintext key
  (src/middleware/apiKey.ts:21), next to its bcrypt hash. So `Entry.key` holds
  it, and `ApiKey.Put` proves the new key is stored.
- The middleware has two outcomes:
  - every path that starts with `/api/` goes through `requireAuthOrApiKey`;
  - every other path proceeds.
  The `/api/auth` exclusion in its first test is undone by its last test
  (`PluginAuth.ApiAuthIsGated`). `requireApiKey` is modelled but no path uses
  it.
- An unset allow-list variable restricts nothing. A variable set to the empty
  string parses to `[""]`, and that list rejects every non-empty user id
  (`Auth.EmptyIdVariableRestricts`).
- Validation scans the records linearly in insertion order and stops at the
  first match. The model does the same.

## Model

| member | source | states |
|---|---|---|
| `Text.Split` | src/middleware/auth.ts:22 | `split(",")` gives one piece more than there are commas, no piece holds a comma, and joining the pieces gives back the input |
| `Text.SplitJoin` | src/middleware/auth.ts:22 | splitting a comma-join of comma-free pieces gives back exactly those pieces |
| `Text.Trim` | src/middleware/auth.ts:22 | `trim()` leaves a string with no leading or trailing JavaScript whitespace, found inside the input with only whitespace around it |
| `Text.EnvOr` | src/plugin-auth.ts:7 | the or-fallback on `process.env.X` is the variable's value when it is set and non-empty, and the fallback when it is unset or empty |
| `Encoding.Hex` | src/middleware/apiKey.ts:18 | `toString("hex")` gives two lower-case hex digits per byte |
| `Encoding.UnhexHex` | src/middleware/apiKey.ts:18 | decoding the hex of any byte string gives back that byte string |
| `Encoding.HexUnhex` | src/middleware/apiKey.ts:18 | any hex text that decodes is exactly the encoding of its decoded bytes |
| `Encoding.Utf8` | src/middleware/apiKey.ts:19 | the UTF-8 bytes bcrypt receives are never fewer than the characters, and equal in number for ASCII |
| `Auth.ParseAllowList` | src/middleware/auth.ts:21-26 | an unset variable gives `[]`; a set one gives, for each comma-separated piece in order, that piece trimmed (so `""` gives `[""]`); every entry is comma-free and trimmed |
| `Auth.ParseJoined` | src/middleware/auth.ts:21-26 | a comma-joined list of trimmed, comma-free ids reads back as exactly that list |
| `Auth.LoadDiscordConfig` | src/middleware/auth.ts:16-26 | the client id, secret and callback URL are their variables with the or-fallback (`""`, `""` and the default URL); each allow-list is its variable parsed, and empty exactly when the variable is unset; the callback URL is never empty |
| `Auth.StrategyNeedsBothCredentials` | src/middleware/auth.ts:28 | the Discord strategy is registered exactly when `DISCORD_CLIENT_ID` and `DISCORD_CLIENT_SECRET` are both set and non-empty |
| `Auth.Includes` | src/middleware/auth.ts:50 | `includes` is list membership |
| `Auth.GuildHasAllowedRole` | src/middleware/auth.ts:57 | a guild matches exactly when its `roles` array exists and holds some allowed role |
| `Auth.SomeGuildHasAllowedRole` | src/middleware/auth.ts:56-58 | the nested `some` holds exactly when some guild lists some allowed role |
| `Auth.Verify` | src/middleware/auth.ts:39-64 | accepted exactly when the id check and the role check both pass, each gating only when its list is non-empty. The id check is decided first ("User not authorized"). The accepted user copies id, username, discriminator, avatar, email and guilds, with missing guilds as `[]` |
| `Auth.OpenPolicyAcceptsAll` | src/middleware/auth.ts:39-64 | with both allow-lists empty every profile is accepted |
| `Auth.NoRolesFailsRoleList` | src/middleware/auth.ts:45-61 | a profile without guilds, or whose guilds have no `roles`, is denied by any non-empty role list |
| `Auth.EmptyIdVariableRestricts` | src/middleware/auth.ts:21-53 | an id variable set to `""` rejects every profile with a non-empty id |
| `Auth.SessionRoundTrip` | src/middleware/auth.ts:72-78 | serialize then deserialize (and the reverse) is the identity |
| `Auth.RequireAuth` | src/middleware/auth.ts:81-90 | `next` exactly when the session is authenticated; throws when `req.isAuthenticated` is missing; 401 otherwise |
| `Auth.OptionalAuth` | src/middleware/auth.ts:92-98 | always `next` |
| `ApiKey.FormatKey` | src/middleware/apiKey.ts:18 | a key is `fameliza_` followed by two hex digits per random byte |
| `ApiKey.KeyRoundTrip` | src/middleware/apiKey.ts:18 | a key gives back exactly the random bytes it was made from |
| `ApiKey.ParsedKeyIsFormatted` | src/middleware/apiKey.ts:18 | every string that parses as a key is the key of the bytes it parses to |
| `ApiKey.IssuedKeyLength` | src/middleware/apiKey.ts:18 | with 32 random bytes the key is 73 characters long |
| `ApiKey.Put` | src/middleware/apiKey.ts:21-25 | `Map.set` keeps keys distinct and stores the key. An existing key keeps its place with the new record; a new key goes last; every other entry is unchanged |
| `ApiKey.FirstMatch` | src/middleware/apiKey.ts:31-36 | the scan stops exactly when some record matches, at the first match in insertion order |
| `ApiKey.AfterValidate` | src/middleware/apiKey.ts:31-37 | without a match nothing changes; otherwise the first matching entry, and no other, gets `lastUsed := now` |
| `ApiKey.ValidateKeepsRecords` | src/middleware/apiKey.ts:31-35 | validation never changes a key, hash, owner or creation time |
| `ApiKey.StoredKeyMatches` | src/middleware/apiKey.ts:16-35 | every stored key validates against its own record |
| `ApiKey.MatchIsStoredKey` | src/middleware/apiKey.ts:30-37 | with a collision-free hash only stored keys validate |
| `ApiKey.BearerToken` | src/middleware/apiKey.ts:45-56 | a candidate is extracted exactly when the header exists and starts with `Bearer `; the header is then `Bearer ` plus the candidate |
| `ApiKey.BearerRoundTrip` | src/middleware/apiKey.ts:56 | `Bearer <k>` yields exactly `k` |
| `ApiKey.ApiKeyRegistry.constructor` | src/middleware/apiKey.ts:14 | the registry starts empty |
| `ApiKey.ApiKeyRegistry.Generate` | src/middleware/apiKey.ts:16-28 | returns the 73-character key of the random bytes. Stores it with its hash, the owner, `createdAt = now` and no `lastUsed`, and changes nothing else. The key validates afterwards |
| `ApiKey.ApiKeyRegistry.Validate` | src/middleware/apiKey.ts:30-38 | the answer is whether some record matches. The new state stamps only the first matching record, and nothing at all on a miss |
| `ApiKey.ApiKeyRegistry.RequireApiKey` | src/middleware/apiKey.ts:40-65 | a missing or non-`Bearer ` header gives 401 without touching the registry. Otherwise `next` exactly when the key validates, else 401 |
| `ApiKey.ApiKeyRegistry.RequireAuthOrApiKey` | src/middleware/apiKey.ts:67-90 | an active session gives `next` with the registry untouched. Otherwise `next` exactly when a valid bearer key is presented, else 401 |
| `ApiKey.GenerateThenValidate` | src/middleware/apiKey.ts:16-37 | a key just generated validates and stays stored |
| `ApiKey.BcryptInput` | src/middleware/apiKey.ts:19 | bcrypt digests the leading bytes of the key's UTF-8 encoding: all of them up to 72, and exactly the first 72 beyond that |
| `ApiKey.BcryptAcceptsAlteredKey` | src/middleware/apiKey.ts:18-19 | with the hash and compare as called, a different key of the same length (the last digit changed) matches the stored hash |
| `ApiKey.FullHashRejectsAlteredKey` | src/middleware/apiKey.ts:18-19 | with the whole key hashed and a collision-free hash, that altered key is rejected |
| `PluginAuth.SessionSettings` | src/plugin-auth.ts:7-39 | the cookie is `httpOnly` with `maxAge` 86,400,000 ms (24 hours), and `secure` only when `NODE_ENV` is `production`. `resave` and `saveUninitialized` are off. The secret is `SESSION_SECRET` when that is set and non-empty, and the default otherwise, so it is never empty |
| `PluginAuth.Classify` | src/plugin-auth.ts:44-59 | a path is gated exactly when it starts with `/api/`; every path gets exactly one outcome |
| `PluginAuth.PublicPathsPass` | src/plugin-auth.ts:52-54 | `/health` and every path starting with `/auth` pass with no credential check |
| `PluginAuth.ApiAuthIsGated` | src/plugin-auth.ts:45-57 | the `/api/auth` exclusion of the first test is undone by the fallback, so such paths are gated |
| `PluginAuth.Middleware` | src/plugin-auth.ts:44-59 | an ungated path proceeds with the registry untouched. A gated path proceeds exactly when the session is active or the bearer key validates, else 401. The registry is unchanged when a session is active or no bearer token is present; otherwise it is the state after validating the token |
| `PluginAuth.MeRoute` | src/plugin-auth.ts:102-114 | 401 exactly when no session is active; otherwise 200 with the session user and `authenticated: true` |
| `PluginAuth.LogoutRoute` | src/plugin-auth.ts:89-95 | a redirect to `/` exactly when logout reports no error; 500 otherwise |
| `PluginAuth.FailureRoute` | src/plugin-auth.ts:121-123 | always 401 |
| `PluginAuth.HealthRoute` | src/plugin-auth.ts:147-149 | always 200 with status `ok` and the given timestamp |
| `PluginAuth.ApiKeyRoute` | src/plugin-auth.ts:129-141 | throws when `req.isAuthenticated` is missing. 401 without a session and 500 when generation fails, both with no key stored. Otherwise 200 with a key generated for `req.user?.id`, which validates afterwards |

## Findings

| source | as written | input that shows it | evidently intended | confidence | as-written member | corrected member |
|---|---|---|---|---|---|---|
| src/middleware/apiKey.ts:18-19 | The key is 73 ASCII characters, but bcrypt digests only the first 72 bytes. The last hex digit is never compared, so any candidate that agrees on the first 72 characters validates | issued key `fameliza_` followed by 64 × `0`; candidate `fameliza_` followed by 63 × `0` and a `1` matches its stored hash | only the issued key validates (e.g. a key of at most 72 bytes, or a digest of the whole key before bcrypt) | not executed; rests on bcrypt's documented 72-byte input limit | `ApiKey.BcryptAcceptsAlteredKey` | `ApiKey.FullHashRejectsAlteredKey` |

## Left out

- bcrypt internals: the salt, the cost factor 10 and the timing. The registry's
  `hash` is a deterministic abstract function over the whole key. Collision
  freedom is assumed only by the lemmas that need it (`ApiKey.MatchIsStoredKey`,
  `ApiKey.FullHashRejectsAlteredKey`).
- ApiKey.ApiKeyRegistry.Validate: compares the whole candidate, the corrected
  behaviour from Findings. The 72-byte truncation of the code as written is
  modelled only by `ApiKey.BcryptInput`, `ApiKey.BcryptHash` and
  `ApiKey.BcryptMatches`.
- Randomness and the clock: the 32 random bytes and `now` are parameters. The
  clock is not assumed monotonic, so "lastUsed only grows" is not stated.
- PluginAuth.ApiKeyRoute: a failure of `generateApiKey` (a failed dynamic
  import, `randomBytes` or `bcrypt.hash`) is a boolean parameter. Every such
  failure happens before `apiKeys.set`, so the registry is unchanged.
- Passport and the Discord OAuth exchange (src/middleware/auth.ts:28-37,
  src/plugin-auth.ts:67-84): the strategy registration, the token exchange, the
  `discord-auth` and `discord-callback` routes, and how passport reports a
  `done(error)`. Only the body of the verify callback is modelled, as
  `Auth.Verify`, plus the registration condition
  (`Auth.StrategyNeedsBothCredentials`).
  The verify callback's `try`/`catch` is not modelled, because nothing in the
  modelled body throws.
- PluginAuth.LogoutRoute: `req.logout`'s effect on the session belongs to
  passport. Only its error flag is modelled.
- express-session cookie signing and storage; the `app.use` registration, the
  `server.app` probe and the logging in `init`.
- Async interleaving and concurrent `validateApiKey`/`generateApiKey` calls.
  Calls run one after another.
- The text of JSON messages. Errors are named by kind (`Rejection`, `Failure`).
- `API_KEY_SECRET` (src/middleware/apiKey.ts:5) is read but never used.
- src/routes/auth.ts is not part of this model: it wires the same handlers
  onto Express a second time. src/fameliza.ts and src/index.ts are not part of
  this model either: they hold persona configuration and bootstrapping.
