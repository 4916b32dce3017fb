/** The adapter object `RedisAdapter` returns, one function per operation.
    Each takes the merged prefixes and the backend, and returns the backend
    after its writes together with what the operation's promise resolves to.
    Writes the source does not await happen here in program order. */
module RedisAdapter {
  import opened Wrappers
  import opened Json
  import opened KeyValue
  import opened Options
  import opened Keys

  /** The backend after an operation, and the value it resolves to. */
  datatype Response<T> = Response(store: Store, result: T)

  /** What `getSessionAndUser` resolves to when the session exists. */
  datatype SessionAndUser = SessionAndUser(session: Record, user: Record)

  /** The record with no fields: `{}`. */
  const EmptyRecord: Record := map[]

  /** `getObjectFromRedis`: the record stored under `key`, or null when the
      key is missing, holds "" or holds text that is not a JSON object. */
  function GetObjectFromRedis(s: Store, key: string): (r: Option<Record>)
    ensures r.Some? <==> Get(s, key).Some? && Get(s, key).value.Obj?
    ensures r.Some? ==> Get(s, key) == Some(Obj(r.value))
  {
    match Get(s, key)
    case None => None
    // "" is falsy; the text the adapter writes besides records (a uuid,
    // malformed JSON) fails to parse.
    case Some(Text(_)) => None
    // Date hydration is taken as the identity.
    case Some(Obj(fields)) => Some(fields)
  }

  /** `saveObject`: a record saved under `key` reads back unchanged, and no
      other key changes. */
  function SaveObject(s: Store, key: string, obj: Record): (r: Store)
    ensures GetObjectFromRedis(r, key) == Some(obj)
    ensures ExpiryOf(r, key).None?
    ensures SameDataExcept(s, r, {key}) && SameExpiryExcept(s, r, {key})
    ensures Valid(s) ==> Valid(r)
  {
    Set(s, key, Obj(obj))
  }

  /** The email index entries a user record owns: one when its email is truthy. */
  function IndexKeys(p: Prefixes, user: Record): set<string> {
    if Truthy(Field(user, "email")) then {EmailKey(p, FieldText(user, "email"))} else {}
  }

  /** `setUser`, which `createUser` calls: `id` is the fresh identifier
      `uuid()` returns. The record gets that id, is saved under the user key,
      and a truthy email gets an index entry holding the bare id. */
  function CreateUser(p: Prefixes, s: Store, user: Record, id: string): (r: Response<Record>)
    ensures r.result.Keys == user.Keys + {"id"} && r.result["id"] == JStr(id)
    ensures forall f :: f in user && f != "id" ==> r.result[f] == user[f]
    ensures GetObjectFromRedis(r.store, UserKey(p, id)) == Some(r.result)
    ensures Truthy(Field(user, "email")) && EmailKey(p, FieldText(user, "email")) != UserKey(p, id)
            ==> Get(r.store, EmailKey(p, FieldText(user, "email"))) == Some(Text(id))
    ensures SameDataExcept(s, r.store, {UserKey(p, id)} + IndexKeys(p, user))
    ensures SameExpiryExcept(s, r.store, {UserKey(p, id)} + IndexKeys(p, user))
    ensures ExpiryOf(r.store, UserKey(p, id)).None?
    ensures forall k :: k in IndexKeys(p, user) ==> ExpiryOf(r.store, k).None?
    ensures Valid(s) ==> Valid(r.store)
  {
    var indexed :=
      if Truthy(Field(user, "email")) then Set(s, EmailKey(p, FieldText(user, "email")), Text(id)) else s;
    var record := user["id" := JStr(id)];
    Response(SaveObject(indexed, UserKey(p, id), record), record)
  }

  /** `getUser`: the record under the user key of `id`. */
  function GetUser(p: Prefixes, s: Store, id: string): (r: Option<Record>)
    ensures r.Some? <==> Get(s, UserKey(p, id)).Some? && Get(s, UserKey(p, id)).value.Obj?
    ensures r.Some? ==> Get(s, UserKey(p, id)) == Some(Obj(r.value))
  {
    GetObjectFromRedis(s, UserKey(p, id))
  }

  /** `getUserByEmail`: the email index entry names a user id, whose record
      is returned. A missing or empty entry gives null. */
  function GetUserByEmail(p: Prefixes, s: Store, email: string): (r: Option<Record>)
    ensures Get(s, EmailKey(p, email)).None? ==> r.None?
    ensures Get(s, EmailKey(p, email)) == Some(Text("")) ==> r.None?
    ensures forall id :: id != "" && Get(s, EmailKey(p, email)) == Some(Text(id)) ==> r == GetUser(p, s, id)
  {
    match Get(s, EmailKey(p, email))
    case None => None
    case Some(Text(id)) => if id == "" then None else GetObjectFromRedis(s, UserKey(p, id))
    // The source would use the object's JSON text as the id.
    case Some(Obj(_)) => None
  }

  /** The inner `updateUser`: the update is spread over the stored record (or
      over nothing when there is none), saved back and returned. */
  function MergeUser(p: Prefixes, s: Store, user: Record): (r: Response<Record>)
    ensures var key := UserKey(p, FieldText(user, "id"));
            var stored := GetObjectFromRedis(s, key).GetOr(EmptyRecord);
            && r.result.Keys == stored.Keys + user.Keys
            && (forall f :: f in user ==> r.result[f] == user[f])
            && (forall f :: f in stored && f !in user ==> r.result[f] == stored[f])
            && GetObjectFromRedis(r.store, key) == Some(r.result)
            && SameDataExcept(s, r.store, {key})
            && ExpiryOf(r.store, key).None?
            && SameExpiryExcept(s, r.store, {key})
    ensures Valid(s) ==> Valid(r.store)
  {
    var key := UserKey(p, FieldText(user, "id"));
    var stored := GetObjectFromRedis(s, key);
    var merged := ShallowMerge(stored.GetOr(EmptyRecord), user);
    Response(SaveObject(s, key, merged), merged)
  }

  /** `updateUser`: a falsy id makes it `createUser` with the fresh id
      `freshId`; otherwise it is a shallow merge into the stored record. */
  function UpdateUser(p: Prefixes, s: Store, user: Record, freshId: string): (r: Response<Record>)
    ensures !Truthy(Field(user, "id")) ==> r == CreateUser(p, s, user, freshId)
    ensures !Truthy(Field(user, "id")) ==>
              && r.result["id"] == JStr(freshId)
              && GetObjectFromRedis(r.store, UserKey(p, freshId)) == Some(r.result)
    ensures Truthy(Field(user, "id")) ==>
              && (forall f :: f in user ==> f in r.result && r.result[f] == user[f])
              && GetObjectFromRedis(r.store, UserKey(p, FieldText(user, "id"))) == Some(r.result)
              && SameDataExcept(s, r.store, {UserKey(p, FieldText(user, "id"))})
              && ExpiryOf(r.store, UserKey(p, FieldText(user, "id"))).None?
              && SameExpiryExcept(s, r.store, {UserKey(p, FieldText(user, "id"))})
    ensures Valid(s) ==> Valid(r.store)
  {
    if !Truthy(Field(user, "id")) then CreateUser(p, s, user, freshId) else MergeUser(p, s, user)
  }

  /** The inner `deleteUser`: drops the email index entry of a truthy email
      and the user key named by the record's own id. */
  function RemoveUser(p: Prefixes, s: Store, user: Record): (r: Store)
    ensures Get(r, UserKey(p, FieldText(user, "id"))).None?
    ensures Truthy(Field(user, "email")) ==> Get(r, EmailKey(p, FieldText(user, "email"))).None?
    ensures SameDataExcept(s, r, {UserKey(p, FieldText(user, "id"))} + IndexKeys(p, user))
    ensures SameExpiryExcept(s, r, {UserKey(p, FieldText(user, "id"))} + IndexKeys(p, user))
    ensures Valid(s) ==> Valid(r)
  {
    var unindexed :=
      if Truthy(Field(user, "email")) then Del(s, EmailKey(p, FieldText(user, "email"))) else s;
    Del(unindexed, UserKey(p, FieldText(user, "id")))
  }

  /** `deleteUser`: null and no change when there is no user record;
      otherwise the record is removed and returned. */
  function DeleteUser(p: Prefixes, s: Store, userId: string): (r: Response<Option<Record>>)
    ensures r.result == GetUser(p, s, userId)
    ensures r.result.None? ==> r.store == s
    ensures r.result.Some? ==>
              && Get(r.store, UserKey(p, FieldText(r.result.value, "id"))).None?
              && (Truthy(Field(r.result.value, "email"))
                  ==> Get(r.store, EmailKey(p, FieldText(r.result.value, "email"))).None?)
              && SameDataExcept(s, r.store,
                                {UserKey(p, FieldText(r.result.value, "id"))} + IndexKeys(p, r.result.value))
              && SameExpiryExcept(s, r.store,
                                  {UserKey(p, FieldText(r.result.value, "id"))} + IndexKeys(p, r.result.value))
    ensures Valid(s) ==> Valid(r.store)
  {
    match GetObjectFromRedis(s, UserKey(p, userId))
    case None => Response(s, None)
    case Some(user) => Response(RemoveUser(p, s, user), Some(user))
  }

  /** `getUserByAccount`: the account record names its user by `userId`;
      null when there is no account record. */
  function GetUserByAccount(p: Prefixes, s: Store, provider: string, providerAccountId: string): (r: Option<Record>)
    ensures GetObjectFromRedis(s, AccountKey(p, provider, providerAccountId)).None? ==> r.None?
    ensures forall account :: Get(s, AccountKey(p, provider, providerAccountId)) == Some(Obj(account))
              ==> r == GetUser(p, s, FieldText(account, "userId"))
  {
    match GetObjectFromRedis(s, AccountKey(p, provider, providerAccountId))
    case None => None
    case Some(account) => GetObjectFromRedis(s, UserKey(p, FieldText(account, "userId")))
  }

  /** The key an account record is stored under. */
  function LinkedAccountKey(p: Prefixes, account: Record): string {
    AccountKey(p, FieldText(account, "provider"), FieldText(account, "providerAccountId"))
  }

  /** `linkAccount`: saves the account and sets the key to expire when the
      account's token does (`expires_at` seconds); returns the account. */
  function LinkAccount(p: Prefixes, s: Store, account: Record): (r: Response<Record>)
    ensures r.result == account
    ensures GetObjectFromRedis(r.store, LinkedAccountKey(p, account)) == Some(account)
    ensures ExpiryOf(r.store, LinkedAccountKey(p, account)) == SecondsToDate(Field(account, "expires_at"))
    ensures SameDataExcept(s, r.store, {LinkedAccountKey(p, account)})
    ensures SameExpiryExcept(s, r.store, {LinkedAccountKey(p, account)})
    ensures Valid(s) ==> Valid(r.store)
  {
    var key := LinkedAccountKey(p, account);
    var saved := SaveObject(s, key, account);
    var expiring :=
      match SecondsToDate(Field(account, "expires_at"))
      case Some(at) => ExpireAt(saved, key, at)
      // An Invalid Date: the backend rejects the call, whose promise is
      // neither awaited nor caught; no expiry is set.
      case None => saved;
    Response(expiring, account)
  }

  /** `unlinkAccount`: the stored account is returned and exactly its key
      removed; with no account record, undefined and no change. */
  function UnlinkAccount(p: Prefixes, s: Store, provider: string, providerAccountId: string): (r: Response<Option<Record>>)
    ensures r.result == GetObjectFromRedis(s, AccountKey(p, provider, providerAccountId))
    ensures r.result.None? ==> r.store == s
    ensures r.result.Some? ==>
              && Get(r.store, AccountKey(p, provider, providerAccountId)).None?
              && SameDataExcept(s, r.store, {AccountKey(p, provider, providerAccountId)})
              && SameExpiryExcept(s, r.store, {AccountKey(p, provider, providerAccountId)})
    ensures Valid(s) ==> Valid(r.store)
  {
    var key := AccountKey(p, provider, providerAccountId);
    match GetObjectFromRedis(s, key)
    case None => Response(s, None)
    case Some(account) => Response(Del(s, key), Some(account))
  }

  /** The key a session record is stored under. */
  function StoredSessionKey(p: Prefixes, session: Record): string {
    SessionKey(p, FieldText(session, "sessionToken"))
  }

  /** `createSession`: saves the session, then sets both the session key and
      the owning user's key to expire at `expires`; returns the session. */
  function CreateSession(p: Prefixes, s: Store, session: Record): (r: Response<Record>)
    ensures r.result == session
    ensures GetObjectFromRedis(r.store, StoredSessionKey(p, session)) == Some(session)
    ensures SameDataExcept(s, r.store, {StoredSessionKey(p, session)})
    ensures var userKey := UserKey(p, FieldText(session, "userId"));
            var at := DateMillis(Field(session, "expires"));
            && ExpiryOf(r.store, StoredSessionKey(p, session)) == at
            && (at.Some? && Get(r.store, userKey).Some? ==> ExpiryOf(r.store, userKey) == at)
            && (at.None? ==> SameExpiryExcept(s, r.store, {StoredSessionKey(p, session)}))
            && SameExpiryExcept(s, r.store, {StoredSessionKey(p, session), userKey})
    ensures Valid(s) ==> Valid(r.store)
  {
    var key := StoredSessionKey(p, session);
    var saved := SaveObject(s, key, session);
    var expiring :=
      match DateMillis(Field(session, "expires"))
      case Some(at) => ExpireAt(ExpireAt(saved, key, at), UserKey(p, FieldText(session, "userId")), at)
      case None => saved;
    Response(expiring, session)
  }

  /** `getSessionAndUser`: null without a session record; otherwise the
      session with its user, or with `{}` when that user record is missing. */
  function GetSessionAndUser(p: Prefixes, s: Store, sessionToken: string): (r: Option<SessionAndUser>)
    ensures r.None? <==> GetObjectFromRedis(s, SessionKey(p, sessionToken)).None?
    ensures r.Some? ==>
              && Get(s, SessionKey(p, sessionToken)) == Some(Obj(r.value.session))
              && (GetUser(p, s, FieldText(r.value.session, "userId")).None? ==> r.value.user == EmptyRecord)
              && (GetUser(p, s, FieldText(r.value.session, "userId")).Some? ==>
                    Get(s, UserKey(p, FieldText(r.value.session, "userId"))) == Some(Obj(r.value.user)))
  {
    match GetObjectFromRedis(s, SessionKey(p, sessionToken))
    case None => None
    case Some(session) =>
      match GetObjectFromRedis(s, UserKey(p, FieldText(session, "userId")))
      case Some(user) => Some(SessionAndUser(session, user))
      case None => Some(SessionAndUser(session, EmptyRecord))
  }

  /** `updateSession`: the update is spread over the stored session (or over
      nothing), saved back and returned. */
  function UpdateSession(p: Prefixes, s: Store, session: Record): (r: Response<Record>)
    ensures var key := StoredSessionKey(p, session);
            var stored := GetObjectFromRedis(s, key).GetOr(EmptyRecord);
            && r.result.Keys == stored.Keys + session.Keys
            && (forall f :: f in session ==> r.result[f] == session[f])
            && (forall f :: f in stored && f !in session ==> r.result[f] == stored[f])
            && GetObjectFromRedis(r.store, key) == Some(r.result)
            && SameDataExcept(s, r.store, {key})
            && ExpiryOf(r.store, key).None?
            && SameExpiryExcept(s, r.store, {key})
    ensures Valid(s) ==> Valid(r.store)
  {
    var key := StoredSessionKey(p, session);
    var stored := GetObjectFromRedis(s, key);
    var merged := ShallowMerge(stored.GetOr(EmptyRecord), session);
    Response(SaveObject(s, key, merged), merged)
  }

  /** `deleteSession`: the stored session is returned and its key removed;
      with no session record, null and no change. */
  function DeleteSession(p: Prefixes, s: Store, sessionToken: string): (r: Response<Option<Record>>)
    ensures r.result == GetObjectFromRedis(s, SessionKey(p, sessionToken))
    ensures r.result.None? ==> r.store == s
    ensures r.result.Some? ==>
              && Get(r.store, SessionKey(p, sessionToken)).None?
              && SameDataExcept(s, r.store, {SessionKey(p, sessionToken)})
              && SameExpiryExcept(s, r.store, {SessionKey(p, sessionToken)})
    ensures Valid(s) ==> Valid(r.store)
  {
    var key := SessionKey(p, sessionToken);
    match GetObjectFromRedis(s, key)
    case None => Response(s, None)
    case Some(session) => Response(Del(s, key), Some(session))
  }

  /** The key a verification token record is stored under. */
  function StoredTokenKey(p: Prefixes, verificationToken: Record): string {
    VerificationTokenKey(p, FieldText(verificationToken, "identifier"), FieldText(verificationToken, "token"))
  }

  /** `createVerificationToken`: saves the token record and returns it. */
  function CreateVerificationToken(p: Prefixes, s: Store, verificationToken: Record): (r: Response<Record>)
    ensures r.result == verificationToken
    ensures GetObjectFromRedis(r.store, StoredTokenKey(p, verificationToken)) == Some(verificationToken)
    ensures SameDataExcept(s, r.store, {StoredTokenKey(p, verificationToken)})
    ensures SameExpiryExcept(s, r.store, {StoredTokenKey(p, verificationToken)})
    ensures ExpiryOf(r.store, StoredTokenKey(p, verificationToken)).None?
    ensures Valid(s) ==> Valid(r.store)
  {
    var key := StoredTokenKey(p, verificationToken);
    Response(SaveObject(s, key, verificationToken), verificationToken)
  }

  /** `useVerificationToken`: returns what is stored under the token's key
      (null when nothing parsable is) and deletes that key either way. */
  function UseVerificationToken(p: Prefixes, s: Store, identifier: string, token: string): (r: Response<Option<Record>>)
    ensures r.result == GetObjectFromRedis(s, VerificationTokenKey(p, identifier, token))
    ensures Get(r.store, VerificationTokenKey(p, identifier, token)).None?
    ensures SameDataExcept(s, r.store, {VerificationTokenKey(p, identifier, token)})
    ensures ExpiryOf(r.store, VerificationTokenKey(p, identifier, token)).None?
    ensures SameExpiryExcept(s, r.store, {VerificationTokenKey(p, identifier, token)})
    ensures Valid(s) ==> Valid(r.store)
  {
    var key := VerificationTokenKey(p, identifier, token);
    Response(Del(s, key), GetObjectFromRedis(s, key))
  }
}
