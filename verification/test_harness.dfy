/** The keys the adapter's test wiring reads records back from, set against
    the keys the adapter writes under the same base prefix "testApp:". The
    user and session keys agree; the account and token keys do not. */
module TestHarness {
  import opened Wrappers
  import opened Json
  import opened KeyValue
  import opened Options
  import opened Keys
  import opened RedisAdapter

  /** The options the tests build the adapter with. */
  const TestOptions: AdapterOptions := AdapterOptions(Given("testApp:"), Absent, Absent, Absent, Absent, Absent)

  function TestPrefixes(): Prefixes {
    MergeOptions(TestOptions)
  }

  function HarnessUserKey(id: string): string {
    "testApp:user:" + id
  }

  function HarnessAccountKey(provider: string, providerAccountId: string): string {
    "testApp:user:account:" + provider + ":" + providerAccountId
  }

  function HarnessSessionKey(sessionToken: string): string {
    "testApp:user:session:" + sessionToken
  }

  /** The token read uses the identifier alone. */
  function HarnessVerificationTokenKey(identifier: string): string {
    "testApp:user:token:" + identifier
  }

  /** The harness reads users and sessions where the adapter writes them. */
  lemma HarnessUserAndSessionKeysAgree(id: string, sessionToken: string)
    ensures HarnessUserKey(id) == UserKey(TestPrefixes(), id)
    ensures HarnessSessionKey(sessionToken) == SessionKey(TestPrefixes(), sessionToken)
  {
    var p := TestPrefixes();
    assert p.user == "testApp:user:" && p.session == "testApp:user:session:";
  }

  /** The harness reads an account one character short of the key the
      adapter writes, which has an extra ':' after the prefix. */
  lemma HarnessAccountKeyMisses(provider: string, providerAccountId: string)
    ensures |AccountKey(TestPrefixes(), provider, providerAccountId)| == |HarnessAccountKey(provider, providerAccountId)| + 1
    ensures HarnessAccountKey(provider, providerAccountId) != AccountKey(TestPrefixes(), provider, providerAccountId)
  {
    var p := TestPrefixes();
    assert p.account == "testApp:user:account:";
  }

  /** The harness reads a token at a key that lacks the adapter's
      ":" + token suffix. */
  lemma HarnessVerificationTokenKeyMisses(identifier: string, token: string)
    ensures |VerificationTokenKey(TestPrefixes(), identifier, token)| == |HarnessVerificationTokenKey(identifier)| + 1 + |token|
    ensures HarnessVerificationTokenKey(identifier) != VerificationTokenKey(TestPrefixes(), identifier, token)
  {
    var p := TestPrefixes();
    assert p.verificationToken == "testApp:user:token:";
  }

  /** On an empty backend, the harness does not find an account the adapter
      has just linked. */
  lemma HarnessMissesLinkedAccount(account: Record)
    ensures var linked := LinkAccount(TestPrefixes(), EmptyStore, account).store;
            GetObjectFromRedis(linked, HarnessAccountKey(FieldText(account, "provider"), FieldText(account, "providerAccountId"))).None?
  {
    HarnessAccountKeyMisses(FieldText(account, "provider"), FieldText(account, "providerAccountId"));
  }

  /** On an empty backend, the harness does not find a token the adapter has
      just created. */
  lemma HarnessMissesCreatedToken(verificationToken: Record)
    ensures var created := CreateVerificationToken(TestPrefixes(), EmptyStore, verificationToken).store;
            GetObjectFromRedis(created, HarnessVerificationTokenKey(FieldText(verificationToken, "identifier"))).None?
  {
    HarnessVerificationTokenKeyMisses(FieldText(verificationToken, "identifier"), FieldText(verificationToken, "token"));
  }
}
