/** How the adapter names its keys. Composite keys join their parts with ':'
    and escape nothing. */
module Keys {
  import opened Options

  function UserKey(p: Prefixes, id: string): string {
    p.user + id
  }

  /** The email index entry of `email`. */
  function EmailKey(p: Prefixes, email: string): string {
    p.email + email
  }

  /** The account key puts a ':' right after the prefix, which by default
      already ends in one. */
  function AccountKey(p: Prefixes, provider: string, providerAccountId: string): string {
    p.account + ":" + provider + ":" + providerAccountId
  }

  function SessionKey(p: Prefixes, sessionToken: string): string {
    p.session + sessionToken
  }

  function VerificationTokenKey(p: Prefixes, identifier: string, token: string): string {
    p.verificationToken + identifier + ":" + token
  }

  /** Index of the first ':' in `s`, or `|s|` when there is none. */
  function ColonIndex(s: string): (i: nat)
    ensures i <= |s|
    ensures i < |s| ==> s[i] == ':'
    ensures forall j :: 0 <= j < i ==> s[j] != ':'
  {
    if s == [] then 0
    else if s[0] == ':' then 0
    else 1 + ColonIndex(s[1..])
  }

  /** `a:b` splits back into `a` and `b` at its first ':' when `a` has none. */
  lemma SplitJoin(a: string, b: string)
    requires ':' !in a
    ensures ColonIndex(a + ":" + b) == |a|
    ensures (a + ":" + b)[..|a|] == a && (a + ":" + b)[|a| + 1..] == b
  {
    var s := a + ":" + b;
    assert s[|a|] == ':';
    assert forall j :: 0 <= j < |a| ==> s[j] == a[j];
  }

  /** Joining with ':' loses nothing when the first part holds no ':'. */
  lemma {:induction false} JoinInjective(a1: string, b1: string, a2: string, b2: string)
    requires ':' !in a1 && ':' !in a2
    requires a1 + ":" + b1 == a2 + ":" + b2
    ensures a1 == a2 && b1 == b2
  {
    SplitJoin(a1, b1);
    SplitJoin(a2, b2);
  }

  /** Two keys under the same prefix agree on what follows it. */
  lemma StripPrefix(pre: string, x: string, y: string)
    requires pre + x == pre + y
    ensures x == y
  {
    assert x == (pre + x)[|pre|..];
    assert y == (pre + y)[|pre|..];
  }

  /** Distinct accounts get distinct keys as long as provider names hold no ':'. */
  lemma AccountKeyInjective(p: Prefixes, provider1: string, id1: string, provider2: string, id2: string)
    requires ':' !in provider1 && ':' !in provider2
    requires AccountKey(p, provider1, id1) == AccountKey(p, provider2, id2)
    ensures provider1 == provider2 && id1 == id2
  {
    var pre := p.account + ":";
    assert AccountKey(p, provider1, id1) == pre + (provider1 + ":" + id1);
    assert AccountKey(p, provider2, id2) == pre + (provider2 + ":" + id2);
    StripPrefix(pre, provider1 + ":" + id1, provider2 + ":" + id2);
    JoinInjective(provider1, id1, provider2, id2);
  }

  /** With a ':' inside a provider name, two different accounts share a key. */
  lemma AccountKeyCollision(p: Prefixes)
    ensures AccountKey(p, "a:b", "c") == AccountKey(p, "a", "b:c")
  {
    assert "a:b" + ":" + "c" == "a" + ":" + "b:c";
  }

  /** Distinct tokens get distinct keys as long as identifiers hold no ':'. */
  lemma VerificationTokenKeyInjective(p: Prefixes, identifier1: string, token1: string, identifier2: string, token2: string)
    requires ':' !in identifier1 && ':' !in identifier2
    requires VerificationTokenKey(p, identifier1, token1) == VerificationTokenKey(p, identifier2, token2)
    ensures identifier1 == identifier2 && token1 == token2
  {
    var pre := p.verificationToken;
    assert VerificationTokenKey(p, identifier1, token1) == pre + (identifier1 + ":" + token1);
    assert VerificationTokenKey(p, identifier2, token2) == pre + (identifier2 + ":" + token2);
    StripPrefix(pre, identifier1 + ":" + token1, identifier2 + ":" + token2);
    JoinInjective(identifier1, token1, identifier2, token2);
  }

  /** With a ':' inside an identifier (an email address may hold one), two
      different tokens share a key. */
  lemma VerificationTokenKeyCollision(p: Prefixes)
    ensures VerificationTokenKey(p, "a:b", "c") == VerificationTokenKey(p, "a", "b:c")
  {
    assert "a:b" + ":" + "c" == "a" + ":" + "b:c";
  }

  /** Under the default prefixes an account key is `user:account::` followed
      by the provider, ':' and the provider's account id. */
  lemma DefaultAccountKeyShape(provider: string, providerAccountId: string)
    ensures AccountKey(MergeOptions(NoOptions), provider, providerAccountId)
            == "user:account::" + provider + ":" + providerAccountId
  {
    MergeNoOptions();
  }

  /** Under the default prefixes the kinds are not kept apart: the user key
      of id `email:e` is the email index entry of `e`. */
  lemma DefaultUserKeyMeetsEmailKey(email: string)
    ensures UserKey(MergeOptions(NoOptions), "email:" + email) == EmailKey(MergeOptions(NoOptions), email)
  {
    MergeNoOptions();
    var p := DefaultPrefixes;
    assert p.email == p.user + "email:";
    calc {
      UserKey(p, "email:" + email);
      p.user + ("email:" + email);
      (p.user + "email:") + email;
      EmailKey(p, email);
    }
  }
}
