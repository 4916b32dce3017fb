/** The adapter's options and the merge that turns them into the key
    prefixes: every per-kind prefix is put under the base prefix. */
module Options {
  import opened Wrappers

  /** How one field of the options object is given. The object spread tells
      a missing field from one explicitly set to `undefined`: only the
      second overrides the default. */
  datatype Setting = Absent | Undefined | Given(text: string)

  /** The fields of the options object. */
  datatype OptionKey = BaseKeyPrefix | AccountKeyPrefix | EmailKeyPrefix | SessionKeyPrefix | UserKeyPrefix | VerificationTokenKeyPrefix

  datatype AdapterOptions = AdapterOptions(
    base: Setting,
    account: Setting,
    email: Setting,
    session: Setting,
    user: Setting,
    verificationToken: Setting)

  /** The prefixes every key is built from, after merging. */
  datatype Prefixes = Prefixes(
    base: string,
    account: string,
    email: string,
    session: string,
    user: string,
    verificationToken: string)

  /** The options object `{}` the adapter gets when none is passed. */
  const NoOptions: AdapterOptions := AdapterOptions(Absent, Absent, Absent, Absent, Absent, Absent)

  const DefaultOptions: AdapterOptions := AdapterOptions(
    Given(""),
    Given("user:account:"),
    Given("user:email:"),
    Given("user:session:"),
    Given("user:"),
    Given("user:token:"))

  /** The text a field contributes to `+`: a missing or `undefined` field
      reads as "undefined". */
  function SettingText(v: Setting): string {
    match v
    case Given(s) => s
    case _ => "undefined"
  }

  /** A field of `{ ...defaults, ...given }`. */
  function Spread1(default: Setting, given: Setting): Setting {
    if given.Absent? then default else given
  }

  /** The field `k` of an options object. */
  function OptionOf(o: AdapterOptions, k: OptionKey): Setting {
    match k
    case BaseKeyPrefix => o.base
    case AccountKeyPrefix => o.account
    case EmailKeyPrefix => o.email
    case SessionKeyPrefix => o.session
    case UserKeyPrefix => o.user
    case VerificationTokenKeyPrefix => o.verificationToken
  }

  /** The entries of `{ ...defaultOptions, ...options }`, in the field order
      of `defaultOptions`, which the spread keeps. */
  function Spread(options: AdapterOptions): seq<(OptionKey, Setting)> {
    [ (BaseKeyPrefix, Spread1(DefaultOptions.base, options.base)),
      (AccountKeyPrefix, Spread1(DefaultOptions.account, options.account)),
      (EmailKeyPrefix, Spread1(DefaultOptions.email, options.email)),
      (SessionKeyPrefix, Spread1(DefaultOptions.session, options.session)),
      (UserKeyPrefix, Spread1(DefaultOptions.user, options.user)),
      (VerificationTokenKeyPrefix, Spread1(DefaultOptions.verificationToken, options.verificationToken)) ]
  }

  function Find(m: map<OptionKey, string>, k: OptionKey): Option<string> {
    if k in m then Some(m[k]) else None
  }

  /** `acc[k]` read as text. */
  function FieldOf(m: map<OptionKey, string>, k: OptionKey): string {
    if k in m then m[k] else "undefined"
  }

  /** The reduce over the spread entries: every entry other than the base
      becomes `acc.baseKeyPrefix + val`; the base entry is skipped. */
  function Reduce(entries: seq<(OptionKey, Setting)>, acc: map<OptionKey, string>): map<OptionKey, string>
    decreases |entries|
  {
    if entries == [] then acc
    else
      var key := entries[0].0;
      var acc' := if key != BaseKeyPrefix then acc[key := FieldOf(acc, BaseKeyPrefix) + SettingText(entries[0].1)] else acc;
      Reduce(entries[1..], acc')
  }

  /** The value of the last entry for `k`, which is the one the reduce leaves. */
  function LastSetting(entries: seq<(OptionKey, Setting)>, k: OptionKey): Option<Setting>
    decreases |entries|
  {
    if entries == [] then None
    else
      match LastSetting(entries[1..], k)
      case Some(v) => Some(v)
      case None => if entries[0].0 == k then Some(entries[0].1) else None
  }

  /** The reduce keeps the base prefix, and leaves every other field as the
      base prefix followed by the last entry given for it. */
  lemma {:induction false} ReduceClosedForm(entries: seq<(OptionKey, Setting)>, acc: map<OptionKey, string>)
    requires BaseKeyPrefix in acc
    ensures Find(Reduce(entries, acc), BaseKeyPrefix) == Some(acc[BaseKeyPrefix])
    ensures forall k :: k != BaseKeyPrefix ==>
              Find(Reduce(entries, acc), k) ==
                (match LastSetting(entries, k)
                 case Some(v) => Some(acc[BaseKeyPrefix] + SettingText(v))
                 case None => Find(acc, k))
    decreases |entries|
  {
    if entries != [] {
      var key := entries[0].0;
      var acc' := if key != BaseKeyPrefix then acc[key := FieldOf(acc, BaseKeyPrefix) + SettingText(entries[0].1)] else acc;
      assert Reduce(entries, acc) == Reduce(entries[1..], acc');
      ReduceClosedForm(entries[1..], acc');
    }
  }

  /** Each field appears once in the spread, with the override if one is
      present and the default otherwise. */
  lemma SpreadFields(options: AdapterOptions, k: OptionKey)
    ensures LastSetting(Spread(options), k) == Some(Spread1(OptionOf(DefaultOptions, k), OptionOf(options, k)))
  {
    var e := Spread(options);
    var want := Some(Spread1(OptionOf(DefaultOptions, k), OptionOf(options, k)));
    assert e[6..] == [];
    assert e[5..][1..] == e[6..];
    assert LastSetting(e[5..], k) == if k == VerificationTokenKeyPrefix then want else None;
    assert e[4..][1..] == e[5..];
    assert LastSetting(e[4..], k) == if k in {UserKeyPrefix, VerificationTokenKeyPrefix} then want else None;
    assert e[3..][1..] == e[4..];
    assert LastSetting(e[3..], k) == if k in {SessionKeyPrefix, UserKeyPrefix, VerificationTokenKeyPrefix} then want else None;
    assert e[2..][1..] == e[3..];
    assert LastSetting(e[2..], k) == if k != BaseKeyPrefix && k != AccountKeyPrefix then want else None;
    assert e[1..][1..] == e[2..];
    assert LastSetting(e[1..], k) == if k != BaseKeyPrefix then want else None;
    assert e[0..][1..] == e[1..];
    assert e[0..] == e;
  }

  /** What a per-kind override contributes: the default when the field is
      missing, "undefined" when it is explicitly `undefined`. */
  function OverrideOr(given: Setting, default: string): string {
    match given
    case Absent => default
    case Undefined => "undefined"
    case Given(s) => s
  }

  /** `options.baseKeyPrefix || defaultOptions.baseKeyPrefix` */
  function BaseFallback(given: Setting): string {
    if given.Given? && given.text != "" then given.text else SettingText(DefaultOptions.base)
  }

  /** The merge in `RedisAdapter`: the base prefix is the one supplied or
      "", and each per-kind prefix is the base followed by the override or
      the default. */
  function MergeOptions(options: AdapterOptions): (p: Prefixes)
    ensures p.base == (if options.base.Given? then options.base.text else "")
    ensures p.account == p.base + OverrideOr(options.account, "user:account:")
    ensures p.email == p.base + OverrideOr(options.email, "user:email:")
    ensures p.session == p.base + OverrideOr(options.session, "user:session:")
    ensures p.user == p.base + OverrideOr(options.user, "user:")
    ensures p.verificationToken == p.base + OverrideOr(options.verificationToken, "user:token:")
  {
    var entries := Spread(options);
    var acc := map[BaseKeyPrefix := BaseFallback(options.base)];
    ReduceClosedForm(entries, acc);
    SpreadFields(options, AccountKeyPrefix);
    SpreadFields(options, EmailKeyPrefix);
    SpreadFields(options, SessionKeyPrefix);
    SpreadFields(options, UserKeyPrefix);
    SpreadFields(options, VerificationTokenKeyPrefix);
    var merged := Reduce(entries, acc);
    Prefixes(
      FieldOf(merged, BaseKeyPrefix),
      FieldOf(merged, AccountKeyPrefix),
      FieldOf(merged, EmailKeyPrefix),
      FieldOf(merged, SessionKeyPrefix),
      FieldOf(merged, UserKeyPrefix),
      FieldOf(merged, VerificationTokenKeyPrefix))
  }

  /** The prefixes an adapter created without options uses. */
  const DefaultPrefixes: Prefixes :=
    Prefixes("", "user:account:", "user:email:", "user:session:", "user:", "user:token:")

  /** Without options, every prefix is its default under the empty base. */
  lemma MergeNoOptions()
    ensures MergeOptions(NoOptions) == DefaultPrefixes
  {
    var p := MergeOptions(NoOptions);
    assert p.account == "" + "user:account:";
  }
}
