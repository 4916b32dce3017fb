/** Properties that relate several adapter operations: what a write lets a
    later read see, and what a delete takes away. */
module AdapterProperties {
  import opened Wrappers
  import opened Json
  import opened KeyValue
  import opened Options
  import opened Keys
  import opened RedisAdapter

  /** A created user reads back by its id. */
  lemma CreateThenGetUser(p: Prefixes, s: Store, user: Record, id: string)
    ensures GetUser(p, CreateUser(p, s, user, id).store, id) == Some(CreateUser(p, s, user, id).result)
    ensures FieldText(CreateUser(p, s, user, id).result, "id") == id
  {
  }

  /** A created user with a truthy email reads back by that email, given a
      non-empty id whose user key is not the email's index key. */
  lemma CreateThenGetUserByEmail(p: Prefixes, s: Store, user: Record, id: string)
    requires Truthy(Field(user, "email")) && id != ""
    requires EmailKey(p, FieldText(user, "email")) != UserKey(p, id)
    ensures GetUserByEmail(p, CreateUser(p, s, user, id).store, FieldText(user, "email"))
            == Some(CreateUser(p, s, user, id).result)
  {
  }

  /** An update with an id reads back merged: the update's fields win and
      every other stored field is kept. */
  lemma UpdateThenGetUser(p: Prefixes, s: Store, user: Record, freshId: string)
    requires Truthy(Field(user, "id"))
    ensures var r := UpdateUser(p, s, user, freshId);
            var id := FieldText(user, "id");
            && GetUser(p, r.store, id) == Some(r.result)
            && (forall f :: f in user ==> f in r.result && r.result[f] == user[f])
            && (GetUser(p, s, id).Some? ==>
                  forall f :: f in GetUser(p, s, id).value && f !in user ==>
                    f in r.result && r.result[f] == GetUser(p, s, id).value[f])
  {
  }

  /** An update without an id goes through `setUser`: a truthy email in it
      is indexed to the fresh id and finds the new user. */
  lemma UpdateWithoutIdIndexesEmail(p: Prefixes, s: Store, user: Record, freshId: string)
    requires !Truthy(Field(user, "id")) && Truthy(Field(user, "email")) && freshId != ""
    requires EmailKey(p, FieldText(user, "email")) != UserKey(p, freshId)
    ensures var r := UpdateUser(p, s, user, freshId);
            && Get(r.store, EmailKey(p, FieldText(user, "email"))) == Some(Text(freshId))
            && GetUserByEmail(p, r.store, FieldText(user, "email")) == Some(r.result)
  {
    CreateThenGetUserByEmail(p, s, user, freshId);
  }

  /** After deleting a user whose record carries its own id, neither the id
      nor the email finds it. */
  lemma DeleteThenGetUser(p: Prefixes, s: Store, userId: string)
    requires GetUser(p, s, userId).Some?
    requires Field(GetUser(p, s, userId).value, "id") == Some(JStr(userId))
    ensures var after := DeleteUser(p, s, userId).store;
            var user := GetUser(p, s, userId).value;
            && GetUser(p, after, userId).None?
            && (Truthy(Field(user, "email")) ==> GetUserByEmail(p, after, FieldText(user, "email")).None?)
  {
  }

  /** Deleting a user that is not there is a no-op returning null. */
  lemma DeleteMissingUser(p: Prefixes, s: Store, userId: string)
    requires Get(s, UserKey(p, userId)).None?
    ensures DeleteUser(p, s, userId) == Response(s, None)
  {
  }

  /** A linked account leads to the user its `userId` names, as that user
      was before linking, unless the account key is that user's key. */
  lemma LinkThenGetUserByAccount(p: Prefixes, s: Store, account: Record)
    requires LinkedAccountKey(p, account) != UserKey(p, FieldText(account, "userId"))
    ensures GetUserByAccount(p, LinkAccount(p, s, account).store,
                             FieldText(account, "provider"), FieldText(account, "providerAccountId"))
            == GetUser(p, s, FieldText(account, "userId"))
  {
    var after := LinkAccount(p, s, account).store;
    assert Get(after, LinkedAccountKey(p, account)) == Some(Obj(account));
  }

  /** Once unlinked, an account leads to no user. */
  lemma UnlinkThenGetUserByAccount(p: Prefixes, s: Store, provider: string, providerAccountId: string)
    ensures GetUserByAccount(p, UnlinkAccount(p, s, provider, providerAccountId).store, provider, providerAccountId).None?
  {
  }

  /** A created session reads back with the user it names, or with `{}`
      when that user is missing, unless the session key is the user key. */
  lemma CreateThenGetSessionAndUser(p: Prefixes, s: Store, session: Record)
    requires StoredSessionKey(p, session) != UserKey(p, FieldText(session, "userId"))
    ensures GetSessionAndUser(p, CreateSession(p, s, session).store, FieldText(session, "sessionToken"))
            == Some(SessionAndUser(session, GetUser(p, s, FieldText(session, "userId")).GetOr(EmptyRecord)))
  {
    var after := CreateSession(p, s, session).store;
    assert Get(after, StoredSessionKey(p, session)) == Some(Obj(session));
    assert GetUser(p, after, FieldText(session, "userId")) == GetUser(p, s, FieldText(session, "userId"));
  }

  /** `updateSession` saves with SET, which drops the expiry `createSession`
      put on the session key: afterwards the session never expires. */
  lemma UpdateSessionClearsExpiry(p: Prefixes, s: Store, session: Record, update: Record)
    requires DateMillis(Field(session, "expires")).Some?
    requires FieldText(update, "sessionToken") == FieldText(session, "sessionToken")
    ensures ExpiryOf(CreateSession(p, s, session).store, StoredSessionKey(p, session)).Some?
    ensures ExpiryOf(UpdateSession(p, CreateSession(p, s, session).store, update).store,
                     StoredSessionKey(p, session)).None?
  {
  }

  /** Likewise `updateUser` drops the expiry `createSession` put on the
      owning user's key. */
  lemma UpdateUserClearsSessionExpiry(p: Prefixes, s: Store, session: Record, update: Record, freshId: string)
    requires DateMillis(Field(session, "expires")).Some?
    requires GetUser(p, s, FieldText(session, "userId")).Some?
    requires Truthy(Field(update, "id")) && FieldText(update, "id") == FieldText(session, "userId")
    ensures ExpiryOf(CreateSession(p, s, session).store, UserKey(p, FieldText(session, "userId"))).Some?
    ensures ExpiryOf(UpdateUser(p, CreateSession(p, s, session).store, update, freshId).store,
                     UserKey(p, FieldText(session, "userId"))).None?
  {
  }

  /** Once deleted, a session is not found. */
  lemma DeleteThenGetSessionAndUser(p: Prefixes, s: Store, sessionToken: string)
    ensures GetSessionAndUser(p, DeleteSession(p, s, sessionToken).store, sessionToken).None?
  {
  }

  /** A created token is handed back by the first use. */
  lemma CreateThenUseVerificationToken(p: Prefixes, s: Store, verificationToken: Record)
    ensures UseVerificationToken(p, CreateVerificationToken(p, s, verificationToken).store,
                                 FieldText(verificationToken, "identifier"), FieldText(verificationToken, "token")).result
            == Some(verificationToken)
  {
  }

  /** Tokens are single-use: a second identical use finds nothing and
      changes nothing. */
  lemma UseVerificationTokenTwice(p: Prefixes, s: Store, identifier: string, token: string)
    ensures var first := UseVerificationToken(p, s, identifier, token);
            var second := UseVerificationToken(p, first.store, identifier, token);
            second.result.None? && second.store == first.store
  {
    var first := UseVerificationToken(p, s, identifier, token);
    var key := VerificationTokenKey(p, identifier, token);
    assert key !in first.store.data && key !in first.store.expiry;
    assert first.store.data - {key} == first.store.data;
    assert first.store.expiry - {key} == first.store.expiry;
  }

  /** An update with an id writes only the user key: in particular it
      leaves every email index entry as it was. */
  lemma UpdateLeavesEmailIndex(p: Prefixes, s: Store, user: Record, freshId: string, email: string)
    requires Truthy(Field(user, "id"))
    requires EmailKey(p, email) != UserKey(p, FieldText(user, "id"))
    ensures Get(UpdateUser(p, s, user, freshId).store, EmailKey(p, email)) == Get(s, EmailKey(p, email))
  {
  }

  /** So the index goes stale when an update changes the email: afterwards
      the new email finds nobody and the old one finds the user that no
      longer has it. */
  lemma UpdateUserLeavesEmailIndexStale()
    ensures var p := DefaultPrefixes;
            var created := CreateUser(p, EmptyStore, map["email" := JStr("a@b.com")], "U1");
            var updated := UpdateUser(p, created.store, map["id" := JStr("U1"), "email" := JStr("c@d.com")], "U2");
            && updated.result["email"] == JStr("c@d.com")
            && GetUserByEmail(p, updated.store, "c@d.com").None?
            && GetUserByEmail(p, updated.store, "a@b.com") == Some(updated.result)
  {
    var p := DefaultPrefixes;
    var user := map["email" := JStr("a@b.com")];
    var created := CreateUser(p, EmptyStore, user, "U1");
    var change := map["id" := JStr("U1"), "email" := JStr("c@d.com")];
    var updated := UpdateUser(p, created.store, change, "U2");
    assert FieldText(user, "email") == "a@b.com";
    assert FieldText(change, "id") == "U1";
    assert EmailKey(p, "a@b.com") != UserKey(p, "U1") by {
      assert EmailKey(p, "a@b.com")[5] != UserKey(p, "U1")[5];
    }
    assert EmailKey(p, "c@d.com") != UserKey(p, "U1") by {
      assert EmailKey(p, "c@d.com")[5] != UserKey(p, "U1")[5];
    }
    assert EmailKey(p, "c@d.com") != EmailKey(p, "a@b.com") by {
      assert EmailKey(p, "c@d.com")[11] != EmailKey(p, "a@b.com")[11];
    }
    assert Get(created.store, EmailKey(p, "a@b.com")) == Some(Text("U1"));
    assert Get(created.store, EmailKey(p, "c@d.com")).None?;
    UpdateLeavesEmailIndex(p, created.store, change, "U2", "a@b.com");
    UpdateLeavesEmailIndex(p, created.store, change, "U2", "c@d.com");
    UpdateThenGetUser(p, created.store, change, "U2");
  }

  /** A user created with an email is found by it under the id it was
      given, and an account linked to that id leads back to it. */
  lemma SignInScenario()
    ensures var p := DefaultPrefixes;
            var created := CreateUser(p, EmptyStore, map["email" := JStr("a@b.com")], "U1");
            var account := map["provider" := JStr("github"), "providerAccountId" := JStr("42"),
                               "userId" := JStr("U1"), "expires_at" := JNum(2000000000)];
            var linked := LinkAccount(p, created.store, account);
            && GetUserByEmail(p, created.store, "a@b.com") == Some(created.result)
            && created.result["id"] == JStr("U1")
            && GetUserByAccount(p, linked.store, "github", "42") == Some(created.result)
            && ExpiryOf(linked.store, "user:account::github:42") == Some(2000000000000)
  {
    var p := DefaultPrefixes;
    var user := map["email" := JStr("a@b.com")];
    var created := CreateUser(p, EmptyStore, user, "U1");
    assert FieldText(user, "email") == "a@b.com";
    assert EmailKey(p, "a@b.com") != UserKey(p, "U1") by {
      assert EmailKey(p, "a@b.com")[5] != UserKey(p, "U1")[5];
    }
    CreateThenGetUserByEmail(p, EmptyStore, user, "U1");
    CreateThenGetUser(p, EmptyStore, user, "U1");
    var account := map["provider" := JStr("github"), "providerAccountId" := JStr("42"),
                       "userId" := JStr("U1"), "expires_at" := JNum(2000000000)];
    assert FieldText(account, "provider") == "github";
    assert FieldText(account, "providerAccountId") == "42";
    assert FieldText(account, "userId") == "U1";
    assert LinkedAccountKey(p, account) == "user:account::github:42";
    assert LinkedAccountKey(p, account) != UserKey(p, "U1") by {
      assert LinkedAccountKey(p, account)[5] != UserKey(p, "U1")[5];
    }
    LinkThenGetUserByAccount(p, created.store, account);
  }
}
