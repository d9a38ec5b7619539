/** The semantics of the shared key/value store the service talks to: string
    keys, string values, an optional expiry instant per key, and the five
    commands the service issues (GET, SET with a TTL, DEL, INCR, PEXPIRE). A
    key whose expiry instant has been reached reads as absent. */
module KeyValue {
  import opened Common
  import opened Decimal

  /** A stored value and, when it has a TTL, the instant it expires at. */
  datatype Entry = Entry(value: string, expiresAt: Option<int>)

  type Store = map<string, Entry>

  predicate Live(s: Store, now: int, key: string) {
    key in s && (s[key].expiresAt.None? || now < s[key].expiresAt.value)
  }

  /** GET. */
  function Get(s: Store, now: int, key: string): (r: Option<string>)
    ensures r.Some? <==> Live(s, now, key)
    ensures r.Some? ==> r.value == s[key].value
  {
    if Live(s, now, key) then Some(s[key].value) else None
  }

  /** SET key value PX ttl: replaces whatever was there, value and TTL. */
  function Set(s: Store, now: int, key: string, value: string, ttl: int): (r: Store)
    requires ttl > 0
    ensures Get(r, now, key) == Some(value)
    ensures r - {key} == s - {key}
  {
    s[key := Entry(value, Some(now + ttl))]
  }

  /** DEL: removing an absent key is not an error. */
  function Delete(s: Store, key: string): (r: Store)
    ensures key !in r && r - {key} == s - {key}
  {
    s - {key}
  }

  /** INCR: an absent key counts from 0 and is created without a TTL; a
      present key keeps its TTL. A value that is not a canonical 64-bit
      decimal, or one at the top of the range, is refused. */
  function Incr(s: Store, now: int, key: string): (r: Result<(Store, int)>)
    ensures r.Ok? ==> r.value.0 - {key} == s - {key}
    ensures r.Ok? ==> Get(r.value.0, now, key) == Some(Format(r.value.1))
    ensures !Live(s, now, key) ==> r == Ok((s[key := Entry("1", None)], 1))
    ensures Live(s, now, key) && r.Ok? ==>
              StoreParse(s[key].value) == Some(r.value.1 - 1)
              && r.value.0[key].expiresAt == s[key].expiresAt
  {
    var live := Live(s, now, key);
    var current := if live then StoreParse(s[key].value) else Some(0);
    if current.None? || current.value == MaxInt64 then Err(StoreError)
    else
      var n := current.value + 1;
      Ok((s[key := Entry(Format(n), if live then s[key].expiresAt else None)], n))
  }

  /** PEXPIRE: only a live key gets the new TTL; a TTL that is not positive
      deletes the key. The value is never touched. */
  function Expire(s: Store, now: int, key: string, ttl: int): (r: (Store, bool))
    ensures r.1 <==> Live(s, now, key)
    ensures r.0 - {key} == s - {key}
    ensures ttl > 0 ==> Get(r.0, now, key) == Get(s, now, key)
    ensures ttl > 0 && r.1 ==> r.0[key].expiresAt == Some(now + ttl)
  {
    if !Live(s, now, key) then (s, false)
    else if ttl <= 0 then (Delete(s, key), true)
    else (s[key := s[key].(expiresAt := Some(now + ttl))], true)
  }

  /** A value written with a TTL reads back until the TTL has run out, and
      reads as absent from then on. */
  lemma SetThenGet(s: Store, now: int, key: string, value: string, ttl: int, later: int)
    requires ttl > 0 && now <= later
    ensures Get(Set(s, now, key, value, ttl), later, key)
            == if later < now + ttl then Some(value) else None
  {
  }

  /** Keys live at one instant were live at every earlier instant. */
  lemma LiveEarlier(s: Store, before: int, after: int, key: string)
    requires before <= after && Live(s, after, key)
    ensures Live(s, before, key)
  {
  }
}
