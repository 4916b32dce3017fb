/** The key-value backend the adapter writes through: GET, SET, DEL and
    EXPIREAT with Redis's semantics, on an immutable store value. */
module KeyValue {
  import opened Wrappers
  import opened Json

  /** What one key holds. `Obj` is text that `JSON.parse` turns into an
      object, which every record the adapter saves is. `Text` is any other
      text: the bare user id the email index holds, or a malformed record. */
  datatype Value = Obj(fields: Record) | Text(raw: string)

  /** The stored values, and the expiry instants (milliseconds since the
      epoch) EXPIREAT has set. There is no clock: an expiry is recorded,
      never carried out. */
  datatype Store = Store(data: map<string, Value>, expiry: map<string, int>)

  const EmptyStore: Store := Store(map[], map[])

  /** Redis keeps a time-to-live only on a key that exists. */
  predicate Valid(s: Store) {
    s.expiry.Keys <= s.data.Keys
  }

  /** GET */
  function Get(s: Store, key: string): Option<Value> {
    if key in s.data then Some(s.data[key]) else None
  }

  /** The expiry instant set on a key, if any. */
  function ExpiryOf(s: Store, key: string): Option<int> {
    if key in s.expiry then Some(s.expiry[key]) else None
  }

  /** Every key outside `keys` holds what it held before. */
  ghost predicate SameDataExcept(s: Store, s': Store, keys: set<string>) {
    forall k :: k !in keys ==> Get(s', k) == Get(s, k)
  }

  /** Every key outside `keys` keeps the expiry it had before. */
  ghost predicate SameExpiryExcept(s: Store, s': Store, keys: set<string>) {
    forall k :: k !in keys ==> ExpiryOf(s', k) == ExpiryOf(s, k)
  }

  /** SET: the key holds `v` and, as SET without KEEPTTL does, loses any
      expiry; no other key changes. */
  function Set(s: Store, key: string, v: Value): (r: Store)
    ensures Get(r, key) == Some(v) && ExpiryOf(r, key).None?
    ensures SameDataExcept(s, r, {key}) && SameExpiryExcept(s, r, {key})
    ensures Valid(s) ==> Valid(r)
  {
    Store(s.data[key := v], s.expiry - {key})
  }

  /** DEL: the key and its expiry are gone; no other key changes. Deleting a
      missing key changes nothing. */
  function Del(s: Store, key: string): (r: Store)
    ensures Get(r, key).None? && ExpiryOf(r, key).None?
    ensures SameDataExcept(s, r, {key}) && SameExpiryExcept(s, r, {key})
    ensures Get(s, key).None? && ExpiryOf(s, key).None? ==> r == s
    ensures Valid(s) ==> Valid(r)
  {
    Store(s.data - {key}, s.expiry - {key})
  }

  /** EXPIREAT: an existing key gets the expiry instant `at`; on a missing
      key Redis does nothing. Stored values never change. */
  function ExpireAt(s: Store, key: string, at: int): (r: Store)
    ensures r.data == s.data
    ensures Get(s, key).Some? ==> ExpiryOf(r, key) == Some(at)
    ensures Get(s, key).None? ==> r == s
    ensures SameExpiryExcept(s, r, {key})
    ensures Valid(s) ==> Valid(r)
  {
    if key in s.data then Store(s.data, s.expiry[key := at]) else s
  }
}
