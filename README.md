# Refresh-token sessions of `server/auth.ts`, modelled in Dafny

The project models the session authentication in `server/auth.ts`. Login mints two signed
tokens. The short-lived access token goes in the response body. The long-lived refresh token
goes in the `refreshToken` cookie and is saved in a store keyed by the token string.
`/api/refresh` turns a valid refresh token into a new access token. `/api/user` turns it into
the current user record. `/api/logout` deletes the store record.

Files and modules:

- `wrappers.dfy` (`Wrappers`): `Option` and `Result`.
- `decimal.dfy` (`Decimal`): `toString` of an integer id (`NatToString`, `JsToString`) and
  `parseInt` (`ParseInt`), with the round-trip lemmas.
- `jwt.dfy` (`Jwt`): an abstract model of `jwt.sign` and `jwt.verify`. A token is
  `Signed(claim, key, exp)` or `Garbage(text)`. The key tag stands for the signature, and `exp` is
  in whole seconds, as the library writes it. `Verify` rejects garbage and other keys. It also
  rejects a token once the current second reaches `exp`.
- `auth.dfy` (`Auth`): `generateAccessToken` and `generateRefreshToken` as functions. The
  `SessionServer` class holds the configuration, the user table (`users: map<nat, User>`,
  `nextUserId`) and the refresh store (`refreshStore: map<TokenText, RefreshRecord>`). Each route
  handler is one method returning a `Response(status, body, cookie)`. `Valid()` is the class
  invariant: ids match keys, usernames are unique, every record is keyed by its own token, and
  that token is signed with the refresh secret for the record's user. It also requires that the
  token's expiry second is not later than the stored `expiresAt`, and that the record's user
  exists.
- `protocol.dfy` (`Protocol`): client methods that chain handler calls on one server, stating
  the guarantees that span several requests.

Modelling choices the code leaves open:

- The clock is a parameter `nowMs: nat` (milliseconds). Secrets and lifetimes are an immutable
  `Config`: the access TTL in seconds ("15m" is 900, `DEFAULT_ACCESS_TTL_SECONDS`) and
  `refreshDays` (default 7).
- `server/storage.ts` is not part of this model. The model assumes the following:
  - `saveRefreshToken` is a map insert (it overwrites a record with the same token).
  - `getRefreshToken` is a lookup by the exact token.
  - `deleteRefreshToken` removes the key, and does nothing when the key is absent.
  - `getUser` is a lookup by id.
  - `getUserByUsername` finds the user with that name.
  - `createUser` gives the new user the next id from a counter that starts at 1.
- `utils/session` is not part of this model. `hashPassword` becomes the injected function
  `hashPassword(password, salt)`, with its random salt made an explicit argument.
  `comparePasswords(supplied, stored)` becomes an injected predicate.
- A cookie is `Option<TokenText>`. It counts as present when it exists and is not the empty string,
  which is what JavaScript's `!refreshToken` tests.
- Token strings are compared as values of `TokenText`. By modelling convention, the string a
  signing produced is always written `Signed(claim, key, exp)` and never `Garbage(text)`. Under
  that convention, and because the encoding of a signed token is injective, comparing
  `TokenText` values is exact string comparison. Nothing in the types enforces the convention. A
  `Garbage` value that spelled a signed token's string would be a second name for the same
  cookie, and the model would treat the two as different keys.

Behaviour of the code that the model keeps as it is:

- A verification failure and a missing or expired record get different 403 messages:
  "Invalid refresh token" / "Invalid token" for the first, and "Refresh token expired or
  invalid" / "Refresh token invalid or expired" for the second.
- Logout clears the cookie only when a token was sent.
- Nothing forces the two secrets to differ, so `TokenClassesSeparate` takes that as a hypothesis.
- Register accepts any `role` the caller sends.

The stored-expiry check on `/api/refresh` and `/api/user` uses strict `<`, so a record with
`expiresAt == now` passes it. In the model, login stores `expiresAt = now + refreshDays * DAY_MS`
with a fixed 86400000 ms day. Under that stored expiry, `StoredExpiryRedundant` shows the check
never decides the outcome for records created by login. The token's own expiry second always
comes first, since `exp * 1000 <= expiresAt`. So, in the model, `LoginThenRefresh` states that
the token is accepted exactly while
`floor(now / 1000) < floor(loginTime / 1000) + refreshDays * 86400`. The code adds calendar days
with `Date.setDate`. When clocks spring forward inside the window, the stored expiry falls one
hour before the token's, and during that hour the stored check does reject (see "## Left out").

## Model

| member | source | states |
|---|---|---|
| `Decimal.NatToString` | server/auth.ts:29 | the text of an id is a non-empty run of decimal digits with no leading zero |
| `Decimal.DigitPrefixLength` | server/auth.ts:110 | `parseInt` reads the longest prefix of digits and stops at the first non-digit |
| `Decimal.ParseNatToString` | server/auth.ts:110 | `parseInt(id.toString()) == id` for every non-negative id |
| `Decimal.ParseJsToString` | server/auth.ts:142 | the same round trip for every JavaScript integer value, negative ones and NaN included |
| `Decimal.NatToStringInjective` | server/auth.ts:37 | two ids get the same claim text exactly when they are equal |
| `Decimal.RewriteIsIdentity` | server/auth.ts:110 | writing an id, parsing it and writing it again gives back the first text |
| `Jwt.SignVerifyRoundTrip` | server/auth.ts:103 | verifying with the signing key returns the signed claim before the expiry second, and reports expiry from that second on |
| `Jwt.WrongKeyRejected` | server/auth.ts:135 | verification fails with an invalid signature under any other key and as malformed for garbage; success implies the token was signed with that key and yields its claim |
| `Jwt.ExpiryIsFinal` | server/auth.ts:103 | a token that has expired stays expired at every later time |
| `Decimal.JsToString` | server/auth.ts:29 | `toString` of an id: never empty, and starts with `-` exactly for a negative value; `ParseJsToString` states that `parseInt` reads it back |
| `Decimal.ParseInt` | server/auth.ts:110 | `parseInt`: the empty string and a string starting with neither a digit nor a sign give NaN; a string of digits gives its decimal value; the round trip is `ParseNatToString`, the stopping point `DigitPrefixLength` |
| `Jwt.Sign` | server/auth.ts:28-32 | `jwt.sign`: the token carries the claim and the key, and verifies under that key at its issue time exactly when its lifetime is positive; `SignVerifyRoundTrip` gives every later time |
| `Jwt.Verify` | server/auth.ts:103 | `jwt.verify`: success means the token was signed with this key, yields its claim, and the clock is before its expiry in milliseconds; `WrongKeyRejected` and `ExpiryIsFinal` state the failures |
| `Auth.GenerateAccessToken` | server/auth.ts:26-33 | a token signed with the access secret, expiring `accessTtlSeconds` after the issue second, whose claim has the given role and whose `userId` parses back to the given id; `AccessTokenVerifies` states its verification |
| `Auth.GenerateRefreshToken` | server/auth.ts:35-41 | a token signed with the refresh secret, expiring `refreshDays` days after the issue second, whose claim has the given role and whose `userId` parses back to the given id; `RefreshTokenVerifies` states its verification |
| `Auth.Presented` | server/auth.ts:100 | the `!refreshToken` test: a present cookie exists, and every signed token counts as present |
| `Auth.ClaimedUser` | server/auth.ts:142 | `storage.getUser(parseInt(payload.userId))`: finds a stored user; for a claim written from id `n`, it is exactly the user stored under `n`, if any |
| `Auth.AccessTokenVerifies` | server/auth.ts:26-33 | an access token for user `n` verifies under the access secret until `accessTtlSeconds` after its issue second, and its claim parses back to `n` |
| `Auth.RefreshTokenVerifies` | server/auth.ts:35-41 | a refresh token for user `n` verifies under the refresh secret for `refreshDays` days of seconds, and its claim parses back to `n` |
| `Auth.TokenClassesSeparate` | server/auth.ts:16-17 | with distinct secrets, an access token is rejected as a refresh token and vice versa |
| `Auth.LoginRecordWellFormed` | server/auth.ts:76-82 | the record login saves is keyed by its token, names the user, and expires no earlier than the token's own expiry |
| `Auth.StoredExpiryRedundant` | server/auth.ts:103-108 | in a well-formed store, a token that verifies never fails the stored-expiry check |
| `Auth.ReissuedClaimUnchanged` | server/auth.ts:110 | minting from `parseInt` of a written id reproduces the original claim |
| `Auth.SessionServer.constructor` | server/auth.ts:16-19 | the server starts with the given configuration, no users, no refresh records, and its invariant established |
| `Auth.SessionServer.FindUserByUsername` | server/auth.ts:51 | returns a user with the given username that is stored under its id, or nothing exactly when no user has that name |
| `Auth.SessionServer.Register` | server/auth.ts:47-65 | a taken username gives 400 and no change; otherwise exactly one user is added under the next id with the hashed password, and the 201 body is that user without the password; usernames stay unique and the store is untouched |
| `Auth.SessionServer.Login` | server/auth.ts:69-94 | unknown username or failed password comparison gives 401 with the store unchanged; otherwise 200 with the access token in the body, exactly one record inserted under the new refresh token expiring `refreshDays` days later, and the cookie set with `maxAge = refreshDays * 24 * 60 * 60 * 1000`; the user table never changes |
| `Auth.SessionServer.Refresh` | server/auth.ts:98-115 | a missing cookie gives 401; a verification failure gives 403; a missing or expired record gives 403; 200 exactly when all three checks pass, with an access token signed by the access secret whose claim equals the refresh claim; the store and cookie are untouched |
| `Auth.SessionServer.Logout` | server/auth.ts:118-125 | always 200; with a token, exactly that key is removed and the cookie cleared; without one, nothing changes |
| `Auth.SessionServer.CurrentUser` | server/auth.ts:128-150 | 401 without a cookie, 403 on verification failure or a missing/expired record, 404 when no user has the parsed id, else 200 with that user minus its password; under the invariant 404 never happens and the user is the record's user |
| `Protocol.LogoutRevokes` | server/auth.ts:98-150 | after logout, `/api/refresh` and `/api/user` answer 403 for the same token |
| `Protocol.LogoutTwice` | server/auth.ts:118-125 | two logouts give the same responses and the same state as one |
| `Protocol.LoginThenRefresh` | server/auth.ts:76-113 | a token from a successful login is refreshed (200) exactly while its expiry second has not been reached, else 403, and the new access token carries the login's claim |
| `Protocol.RefreshTwice` | server/auth.ts:103-111 | refreshing twice with the same cookie gives the same answer: the refresh token is neither rotated nor consumed |
| `Protocol.RegisterThenLogin` | server/auth.ts:47-94 | registering a new username and logging in with that password gives 201 then 200, with a signed access token and a cookie `maxAge` of `refreshDays` days, 604800000 ms under the default of 7; under the default "15m" the access token expires 900 seconds after its issue second |

## Left out

- Cryptography: signing is a key tag on the token and verification compares tags. A string signed with a system key but without the `{userId, role}` shape never arises, because only this server holds the keys, and the model treats it as garbage.
- A token's issue time (`iat`) is not modelled. Two logins by the same user in the same second produce the same refresh token string, and the second record replaces the first, as a map insert does.
- `Decimal.ParseInt`: the leading-whitespace skip and the `0x` hexadecimal prefix of `parseInt` are not modelled, because ids are never written with them. JavaScript numbers are taken to be exact integers; precision loss above 2^53 and exponent notation are not modelled.
- `Auth.SessionServer.Login`: the stored expiry is `now + refreshDays * 86400000` ms. The calendar-day arithmetic of `Date.setDate` across daylight-saving changes is not modelled. When clocks spring forward inside the window, the code stores an expiry one hour short.
- `Auth.StoredExpiryRedundant`: holds only for the fixed-length day above. With the code's calendar days, the stored-expiry check can reject a token that still verifies, for up to one hour.
- `Protocol.LoginThenRefresh`: its "accepted exactly until the token's expiry second" holds only for the fixed-length day. With the code's calendar days, refresh can answer 403 up to one hour earlier.
- Configuration loading (`dotenv`, `process.env`, `parseInt` of the day count, duration strings such as "15m") is not modelled: the values arrive as a `Config`. The debug logging of secrets and tokens is not modelled either.
- Express transport, left out as I/O: routing, body and cookie parsing, cookie options other than `maxAge` (`httpOnly`, `secure`, `sameSite`), and JSON serialisation.
- `req.session.userId` in register is not modelled: it is `express-session` state that no other route here reads.
- The 500 response of register's `catch` and storage failures in general are not modelled: the model's store never fails. For the same reason, the `catch` branches of refresh and user are reached only by verification failures.
- Concurrency and `async`/`await` are not modelled: each handler is one atomic step.
- `server/types.d.ts` is only a type declaration, so nothing in it is modelled.
