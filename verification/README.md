# Redis authentication adapter, modelled in Dafny

This project models the Redis adapter of an authentication framework
(`packages/node-redis/src/index.ts`). The adapter stores four kinds of
record under string keys in a key-value store: users, linked accounts,
sessions and single-use verification tokens. It also keeps one secondary
index, from a user's email to the user's id.

The backend is an immutable `Store`: a map from key to `Value` plus a map
from key to expiry instant. A `Value` is either `Obj(record)`, which is text
that parses as a JSON object, or `Text(raw)`. `Text` covers the bare id the
email index holds and any malformed text. The store follows Redis: SET
drops a key's expiry, DEL drops the key and its expiry, and EXPIREAT on a
missing key does nothing. So every operation keeps the invariant
`expiry.Keys <= data.Keys` (`KeyValue.Valid`).

Each adapter operation is a pure function. It takes the merged prefixes,
the store and the call's arguments. It returns a `Response`: the store after
the operation's writes, and the value the operation's promise resolves to.
`None` stands for the `null` or `undefined` the source returns.

Modules:
- `Wrappers`: `Option`.
- `Json`: field values, records, truthiness, template-literal string
  conversion, shallow merge, and `new Date(x * 1000)`.
- `KeyValue`: the backend primitives.
- `Options`: the options object, the defaults, and the prefix merge. The
  merge is modelled as the source's reduce over the spread entries, with a
  closed form proved by induction.
- `Keys`: key construction. The parts of composite keys are joined with
  ':' and nothing is escaped.
- `RedisAdapter`: `getObjectFromRedis`, `saveObject`, the inner `setUser` /
  `deleteUser` / `updateUser`, and every operation of the adapter object.
- `AdapterProperties`: round trips and other properties that span several
  operations.
- `TestHarness`: the keys the test wiring reads
  (`packages/node-redis/tests/index.test.ts`), compared with the keys the
  adapter writes.

Two quirks of the source are kept as written:
- An account key has an extra ':' after its prefix:
  `user:account::github:42`.
- The test wiring reads each account and token at a key other than the
  one the adapter writes for it.

## Behaviour worth knowing

- Account keys carry an extra ':' after the prefix, so the default layout
  is `user:account::<provider>:<id>` (index.ts:130, :139, :147;
  `Keys.DefaultAccountKeyShape`).
- `updateUser` with a truthy id writes only the user key of that id
  (index.ts:96-99, :117). That leaves the email index alone unless the
  user key is itself an index entry, which the shared prefixes allow: under
  the default prefixes the user key of id `email:e` is the index entry of
  email `e` (`Keys.DefaultUserKeyMeetsEmailKey`). Otherwise an update that
  changes the email leaves the old entry pointing at the user and writes no
  entry for the new email (`AdapterProperties.UpdateLeavesEmailIndex`,
  `AdapterProperties.UpdateUserLeavesEmailIndexStale`). With a falsy id it
  goes through `setUser`, which does index a truthy email (index.ts:84-85,
  :114-115; `AdapterProperties.UpdateWithoutIdIndexesEmail`).
- The default per-kind prefixes all start with `user:` (index.ts:25-29), so
  the kinds can share keys. The user key of the id `email:e` is the email
  index entry of `e` (`Keys.DefaultUserKeyMeetsEmailKey`).
- Composite keys join their parts with ':' and escape nothing
  (index.ts:130, :210, :220). A provider or identifier containing ':' makes
  two records share a key (`Keys.AccountKeyCollision`,
  `Keys.VerificationTokenKeyCollision`).
- `createSession` sets an expiry on the owning user's key as well
  (index.ts:165). Redis applies it only when that key exists.
- Every save is a SET, which drops the key's expiry. So `updateSession`
  (index.ts:191) erases the expiry `createSession` put on the session key
  (index.ts:164). `updateUser` (index.ts:98) erases the one put on the user
  key (index.ts:165). After such an update the key never expires
  (`AdapterProperties.UpdateSessionClearsExpiry`,
  `AdapterProperties.UpdateUserClearsSessionExpiry`).

## Model

| member | source | states |
|---|---|---|
| `Options.MergeOptions` | packages/node-redis/src/index.ts:62-74 | The base prefix is the supplied one or "". Each per-kind prefix is the base followed by the override. It is the default when the field is missing and "undefined" when the field is explicitly undefined. |
| `Options.ReduceClosedForm` | packages/node-redis/src/index.ts:62-67 | The reduce over the spread entries leaves the base prefix untouched. Every other field becomes the base followed by the last entry given for it (induction over the entries). |
| `Options.SpreadFields` | packages/node-redis/src/index.ts:62 | `{...defaultOptions, ...options}` yields each field once: the override when present, otherwise the default. |
| `Options.MergeNoOptions` | packages/node-redis/src/index.ts:23-30 | With no options, the prefixes are exactly the defaults `user:account:`, `user:email:`, `user:session:`, `user:` and `user:token:` under the base "". |
| `Json.ShallowMerge` | packages/node-redis/src/index.ts:98 | The spread result has the keys of both records. Fields of the update win, and every other field of the stored record is kept. |
| `Json.SecondsToDate` | packages/node-redis/src/index.ts:142 | `new Date(expires_at * 1000)`: a number n gives n * 1000 ms and a Date of m ms gives m * 1000, each becoming an Invalid Date outside the valid Date range. `null` gives the epoch and `true` gives 1000. A missing `expires_at` or a string gives an Invalid Date. |
| `KeyValue.Set` | packages/node-redis/src/index.ts:76 | After SET the key holds the value and has no expiry. No other key's value or expiry changes, and the expiry invariant is kept. |
| `KeyValue.Del` | packages/node-redis/src/index.ts:93 | After DEL the key and its expiry are gone and nothing else changes. Deleting a missing key is a no-op. |
| `KeyValue.ExpireAt` | packages/node-redis/src/index.ts:164-165 | EXPIREAT records the instant on an existing key only. It never changes stored values and never touches another key's expiry. |
| `Keys.AccountKeyInjective` | packages/node-redis/src/index.ts:130 | Two accounts share a key only if provider and account id are equal, provided neither provider holds ':'. |
| `Keys.AccountKeyCollision` | packages/node-redis/src/index.ts:139 | With ':' in a provider name, the distinct accounts ("a:b", "c") and ("a", "b:c") share a key: there is no escaping. |
| `Keys.VerificationTokenKeyInjective` | packages/node-redis/src/index.ts:210 | Two tokens share a key only if identifier and token are equal, provided neither identifier holds ':'. |
| `Keys.VerificationTokenKeyCollision` | packages/node-redis/src/index.ts:220 | With ':' in an identifier, the distinct tokens ("a:b", "c") and ("a", "b:c") share a key. |
| `Keys.DefaultAccountKeyShape` | packages/node-redis/src/index.ts:147 | Under the default prefixes an account key is `user:account::` + provider + ':' + account id. This includes the extra colon. |
| `Keys.DefaultUserKeyMeetsEmailKey` | packages/node-redis/src/index.ts:25-28 | Under the default prefixes, the user key of id `email:` + e equals the email index key of e. |
| `RedisAdapter.GetObjectFromRedis` | packages/node-redis/src/index.ts:45-56 | It yields a record exactly when the key holds a parsable object, and that record is what the key holds. A missing key, "" or unparsable text yields null. |
| `RedisAdapter.SaveObject` | packages/node-redis/src/index.ts:75-78 | A saved record reads back unchanged through `getObjectFromRedis`, and no other key changes. |
| `RedisAdapter.CreateUser` | packages/node-redis/src/index.ts:82-88 | The result is the input plus `id`. It reads back under `userKeyPrefix + id`. A truthy email gets the index entry `emailKeyPrefix + email ↦ id`. Every key written carries no expiry. Nothing else changes. |
| `RedisAdapter.GetUser` | packages/node-redis/src/index.ts:104-106 | It returns the object stored under the user key of `id`, or null when there is none. |
| `RedisAdapter.GetUserByEmail` | packages/node-redis/src/index.ts:107-112 | A missing or empty index entry gives null. Otherwise it returns the user whose id the entry holds. |
| `RedisAdapter.MergeUser` | packages/node-redis/src/index.ts:96-99 | The update is spread over the stored record, or over `{}` when there is none. Update fields win, all other stored fields are kept, and the merge is saved back. That key loses any expiry; no other key's value or expiry changes. |
| `RedisAdapter.UpdateUser` | packages/node-redis/src/index.ts:113-118 | A falsy `id` makes it exactly `createUser` with the fresh id, so the result reads back under that id. Otherwise the update's fields are in the result, it reads back under the user key of the given id, that key loses any expiry, and no other key's value or expiry changes. |
| `RedisAdapter.RemoveUser` | packages/node-redis/src/index.ts:89-95 | It removes the user key named by the record's own id, and the index entry of a truthy email. Nothing else changes. |
| `RedisAdapter.DeleteUser` | packages/node-redis/src/index.ts:119-127 | With no user record, it returns null and changes nothing. Otherwise it returns the stored record and removes its user key and its email index entry. |
| `RedisAdapter.GetUserByAccount` | packages/node-redis/src/index.ts:129-137 | Null when no account record is stored. Otherwise it returns the user named by the account's `userId`. |
| `RedisAdapter.LinkAccount` | packages/node-redis/src/index.ts:138-145 | The account is stored under its key with the extra colon and returned. The key's expiry is `expires_at * 1000` ms, or none when that is an Invalid Date. Nothing else changes. |
| `RedisAdapter.UnlinkAccount` | packages/node-redis/src/index.ts:146-154 | It returns the stored account and removes exactly its key. With no account record it returns undefined and changes nothing. |
| `RedisAdapter.CreateSession` | packages/node-redis/src/index.ts:156-168 | The session is saved and returned. The session key expires at `expires`, and so does the owning user's key when it exists. Only those expiries change; when `expires` is not a Date only the session key's expiry (cleared by the SET) changes. |
| `RedisAdapter.GetSessionAndUser` | packages/node-redis/src/index.ts:169-188 | Null exactly when no session record is stored. Otherwise it returns the stored session with its user, or with `{}` when the user is missing. |
| `RedisAdapter.UpdateSession` | packages/node-redis/src/index.ts:189-194 | The update is spread over the stored session, or over `{}`. Update fields win, other fields are kept, and the merge is saved. That key loses any expiry, including one `createSession` set; no other key's value or expiry changes. |
| `RedisAdapter.DeleteSession` | packages/node-redis/src/index.ts:200-208 | It returns the stored session and removes its key. With no session record it returns null and changes nothing. |
| `RedisAdapter.CreateVerificationToken` | packages/node-redis/src/index.ts:209-211 | The token is saved under `prefix + identifier + ":" + token`, reads back unchanged, carries no expiry, and is returned. |
| `RedisAdapter.UseVerificationToken` | packages/node-redis/src/index.ts:216-223 | It returns whatever parsable record the token key holds, or null. It deletes that key either way and changes nothing else. |
| `AdapterProperties.CreateThenGetUser` | packages/node-redis/src/index.ts:101-106 | `getUser(createUser(u).id)` returns the created record. |
| `AdapterProperties.CreateThenGetUserByEmail` | packages/node-redis/src/index.ts:107-112 | After `createUser` with a truthy email, `getUserByEmail` on that email returns the created record. This assumes a non-empty id whose key is not the email's index key. |
| `AdapterProperties.UpdateThenGetUser` | packages/node-redis/src/index.ts:113-118 | After an update with an id, `getUser` returns the merge. Update fields win and the other previously stored fields are preserved. |
| `AdapterProperties.UpdateWithoutIdIndexesEmail` | packages/node-redis/src/index.ts:114-115 | An update without an id goes through `setUser`: a truthy email in it gets an index entry holding the fresh id, and `getUserByEmail` on that email finds the new user. |
| `AdapterProperties.DeleteThenGetUser` | packages/node-redis/src/index.ts:119-127 | After deleting a user whose record carries its id, `getUser` returns null. `getUserByEmail` on its email also returns null. |
| `AdapterProperties.DeleteMissingUser` | packages/node-redis/src/index.ts:125 | Deleting an absent user returns null and leaves the store as it was. |
| `AdapterProperties.LinkThenGetUserByAccount` | packages/node-redis/src/index.ts:129-145 | After `linkAccount`, `getUserByAccount` with the same provider and account id returns the user stored under `userKeyPrefix + account.userId`, provided the account key is not that user's key. |
| `AdapterProperties.UnlinkThenGetUserByAccount` | packages/node-redis/src/index.ts:146-154 | After `unlinkAccount`, `getUserByAccount` for that account returns null. |
| `AdapterProperties.CreateThenGetSessionAndUser` | packages/node-redis/src/index.ts:156-188 | Provided the session key is not the user's key, a created session reads back with its user as it was, or with `{}` when that user is missing. |
| `AdapterProperties.UpdateSessionClearsExpiry` | packages/node-redis/src/index.ts:189-194 | After `createSession` with a Date `expires`, the session key has an expiry; an `updateSession` on the same token leaves it with none. |
| `AdapterProperties.UpdateUserClearsSessionExpiry` | packages/node-redis/src/index.ts:96-99 | After `createSession` sets an expiry on an existing user's key, an `updateUser` with that id leaves the key with none. |
| `AdapterProperties.DeleteThenGetSessionAndUser` | packages/node-redis/src/index.ts:200-208 | After `deleteSession`, `getSessionAndUser` returns null. |
| `AdapterProperties.CreateThenUseVerificationToken` | packages/node-redis/src/index.ts:209-223 | The first use of a created token returns it. |
| `AdapterProperties.UseVerificationTokenTwice` | packages/node-redis/src/index.ts:216-223 | A second identical use returns null and leaves the store as the first use left it. |
| `AdapterProperties.UpdateLeavesEmailIndex` | packages/node-redis/src/index.ts:96-99 | An update with a truthy id leaves every email index entry as it was, unless the email's index key is the updated user's key. |
| `AdapterProperties.UpdateUserLeavesEmailIndexStale` | packages/node-redis/src/index.ts:113-118 | Changing a user's email by update leaves the new email unindexed. The old email then finds the user that no longer has it. |
| `AdapterProperties.SignInScenario` | packages/node-redis/src/index.ts:82-145 | Create a user with an email as `U1`: the email finds it. Link `github`/`42` to `U1`: the account finds the same record, and the account key expires at `expires_at * 1000`. |
| `TestHarness.HarnessUserAndSessionKeysAgree` | packages/node-redis/tests/index.test.ts:14-16 | The test wiring reads users and sessions at the keys the adapter writes under the base `testApp:`. |
| `TestHarness.HarnessAccountKeyMisses` | packages/node-redis/tests/index.test.ts:17-21 | The account key the test wiring reads is one character shorter than the one the adapter writes, so the two always differ. |
| `TestHarness.HarnessVerificationTokenKeyMisses` | packages/node-redis/tests/index.test.ts:25-29 | The token key the test wiring reads lacks the adapter's `":" + token` suffix, so the two always differ. |
| `TestHarness.HarnessMissesLinkedAccount` | packages/node-redis/tests/index.test.ts:18-19 | On an empty backend, the test wiring does not find an account just linked. |
| `TestHarness.HarnessMissesCreatedToken` | packages/node-redis/tests/index.test.ts:26-27 | On an empty backend, the test wiring does not find a token just created. |

## Left out

- Redis client I/O and promises. Writes the source does not await are modelled as ordinary writes in program order; what can happen when they race is a concurrency matter.
- The `.catch` fallbacks of `deleteUser`, `linkAccount`, `unlinkAccount`, `getSessionAndUser`, `updateSession` and `deleteSession`. They only react to backend failures, and the backend here never fails.
- Expiry enforcement. There is no clock: an expiry instant is recorded and a key never vanishes by itself. An expiry instant in the past does not delete the key.
- `hydrateDates` and `isDate`. They rely on a regular expression and on `Date.parse`. The JSON round trip plus date hydration is taken as the identity on records, so a string that merely looks like a date stays a string.
- JSON text. Records are stored as structure. Text that is valid JSON but not an object (a number, a quoted string, `null`) is not modelled, because the adapter writes only objects and ids. Nested objects, arrays and non-integer numbers in records are not modelled either.
- `uuid()`: the fresh id is a parameter (`id`, `freshId`).
- RedisAdapter.GetUserByEmail: when the index key holds a JSON object, the source uses that object's JSON text as a user id. The model answers null instead. This only happens when another kind's key coincides with an email key.
- Json.JsString: the string form of a `Date` (locale and time zone dependent) is replaced by a fixed rendering. Under the adapter's declared types, no key is built from a Date. `JNum` is an unbounded integer: JavaScript's doubles, their rounding above 2^53 and the exponent form `String` uses from 10^21 on are not modelled; no key is built from a number under the declared types either.
- Json.SecondsToDate: a numeric string `expires_at` (which JavaScript multiplies as a number) gives no expiry here.
- Json.ShallowMerge: a record cannot hold a field explicitly set to `undefined`. In the source, an update with `f: undefined` overwrites `f` in the returned object, and `JSON.stringify` then drops `f` from the saved text, so the stored value of `f` is lost. The same holds for RedisAdapter.MergeUser and RedisAdapter.UpdateSession. The model has no such update, so it never loses a stored field this way. The same drop on save applies to `createUser`, `linkAccount`, `createSession` and `createVerificationToken`.
- RedisAdapter.CreateSession: an `expires` that is not a Date records no expiry. The client's treatment of a plain number as seconds is not modelled.
- The Prisma adapter, which only delegates to the ORM, and the test files beyond the keys they read.
