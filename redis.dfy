/**
 * The Redis key space the services use, with a namespace per key family
 * (`user:info:<id>`, `user:contacts:<id>`, the contact-apply prefix, and the
 * plain string keys of the verify codes). Every entry carries its absolute
 * expiry time in seconds; an expired entry reads as absent.
 */
module Redis {
  import opened Wrappers
  import opened Entities

  const SECONDS_PER_MINUTE: int := 60
  const SECONDS_PER_HOUR: int := 3600

  /** `RedisConstant.USER_INFO_DURATION` and `USER_CONTACTS_INFO_DURATION`: 30 each. */
  const USER_INFO_DURATION: int := 30
  const USER_CONTACTS_INFO_DURATION: int := 30
  /** Durations the cache layer uses that `RedisConstant` as shipped does not define. */
  const EMPTY_DATA: int
  const USER_CONTACT_APPLIES_DURATION: int

  /** A stored value and when it expires; `None`: no expiry was set. */
  datatype Entry<T> = Entry(value: T, expiresAt: Option<int>)

  predicate Live<T>(e: Entry<T>, now: int) {
    e.expiresAt.None? || now < e.expiresAt.value
  }

  /** `GET`: the value, when the key holds one that has not expired. */
  function Lookup<K, T>(m: map<K, Entry<T>>, k: K, now: int): (r: Option<T>)
    ensures r.Some? <==> k in m && Live(m[k], now)
    ensures r.Some? ==> r.value == m[k].value
  {
    if k in m && Live(m[k], now) then Some(m[k].value) else None
  }

  /** `SET key value EX seconds`. */
  function Expiring<T>(value: T, seconds: int, now: int): (e: Entry<T>)
    ensures e.value == value && e.expiresAt == Some(now + seconds)
  {
    Entry(value, Some(now + seconds))
  }

  /** `TTL` in seconds: -2 for a missing (or expired) key, -1 for a key without expiry. */
  function TimeToLive<K, T>(m: map<K, Entry<T>>, k: K, now: int): (r: int)
    ensures Lookup(m, k, now).None? <==> r == -2
    ensures r == -1 <==> k in m && m[k].expiresAt.None?
    ensures r >= 0 ==> k in m && m[k].expiresAt == Some(now + r)
    ensures r != -1 && r != -2 ==> r > 0
  {
    if !(k in m && Live(m[k], now)) then -2
    else if m[k].expiresAt.None? then -1
    else m[k].expiresAt.value - now
  }

  class RedisStore {
    var userInfo: map<int, Entry<UserInfoCache>>
    var contacts: map<int, Entry<seq<ContactsCache>>>
    var applies: map<int, Entry<seq<ContactApplyCache>>>
    var strings: map<string, Entry<string>>

    constructor ()
      ensures userInfo == map[] && contacts == map[] && applies == map[] && strings == map[]
    {
      userInfo := map[];
      contacts := map[];
      applies := map[];
      strings := map[];
    }

    method SetUserInfo(userId: int, value: UserInfoCache, seconds: int, now: int)
      modifies this`userInfo
      ensures userInfo == old(userInfo)[userId := Expiring(value, seconds, now)]
    {
      userInfo := userInfo[userId := Expiring(value, seconds, now)];
    }

    /** `MSET`: the values are stored without expiry. */
    method MultiSetUserInfo(values: map<int, UserInfoCache>)
      modifies this`userInfo
      ensures userInfo == old(userInfo) + map k | k in values :: Entry(values[k], None)
    {
      userInfo := userInfo + map k | k in values :: Entry(values[k], None);
    }

    /** `EXPIRE`: sets the expiry of a key that holds a value. */
    method ExpireUserInfo(userId: int, seconds: int, now: int) returns (ok: bool)
      modifies this`userInfo
      ensures ok <==> Lookup(old(userInfo), userId, now).Some?
      ensures ok ==> userInfo == old(userInfo)[userId := Expiring(old(userInfo)[userId].value, seconds, now)]
      ensures !ok ==> userInfo == old(userInfo)
    {
      ok := Lookup(userInfo, userId, now).Some?;
      if ok {
        userInfo := userInfo[userId := Expiring(userInfo[userId].value, seconds, now)];
      }
    }

    method DeleteUserInfo(userId: int)
      modifies this`userInfo
      ensures userInfo == old(userInfo) - {userId}
    {
      userInfo := userInfo - {userId};
    }

    method SetContacts(userId: int, value: seq<ContactsCache>, seconds: int, now: int)
      modifies this`contacts
      ensures contacts == old(contacts)[userId := Expiring(value, seconds, now)]
    {
      contacts := contacts[userId := Expiring(value, seconds, now)];
    }

    /** `DEL` of one or several contact-list keys. */
    method DeleteContacts(userIds: set<int>)
      modifies this`contacts
      ensures contacts == old(contacts) - userIds
    {
      contacts := contacts - userIds;
    }

    method SetApplies(userId: int, value: seq<ContactApplyCache>, seconds: int, now: int)
      modifies this`applies
      ensures applies == old(applies)[userId := Expiring(value, seconds, now)]
    {
      applies := applies[userId := Expiring(value, seconds, now)];
    }

    method DeleteApplies(userId: int)
      modifies this`applies
      ensures applies == old(applies) - {userId}
    {
      applies := applies - {userId};
    }

    function GetString(key: string, now: int): (r: Option<string>)
      reads this
      ensures r.Some? <==> key in strings && Live(strings[key], now)
      ensures r.Some? ==> r.value == strings[key].value
    {
      Lookup(strings, key, now)
    }

    method SetString(key: string, value: string, seconds: int, now: int)
      modifies this`strings
      ensures strings == old(strings)[key := Expiring(value, seconds, now)]
    {
      strings := strings[key := Expiring(value, seconds, now)];
    }

    method DeleteString(key: string)
      modifies this`strings
      ensures strings == old(strings) - {key}
    {
      strings := strings - {key};
    }
  }
}
