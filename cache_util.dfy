/**
 * `RedisTemplateUtil`: the cache-aside layer in front of the user, contact
 * and contact-apply tables. A read consults Redis first; on a miss it reads
 * the table once, stores what it found (or a short-lived "nothing here"
 * marker, against cache penetration) and returns it. The ghost counter
 * `storeReads` counts the table reads, so that "a hit does not touch the
 * database" is a postcondition.
 */
module CacheLayer {
  import opened Wrappers
  import opened Enums
  import opened Entities
  import opened Query
  import opened Dao
  import opened Redis

  /** The relation data cached for a contact row (no profile fields). */
  function ContactsCacheOf(c: Contact): (r: ContactsCache)
    ensures r.contactId == c.id && r.friendId == c.friendId && r.remark == c.remark
  {
    ContactsCache(c.id, c.friendId, c.remark)
  }

  function ContactsCacheList(rows: seq<Contact>): (r: seq<ContactsCache>)
    ensures |r| == |rows|
    ensures forall i :: 0 <= i < |rows| ==> r[i] == ContactsCacheOf(rows[i])
  {
    seq(|rows|, i requires 0 <= i < |rows| => ContactsCacheOf(rows[i]))
  }

  /** The cached form of a pending apply: its status is always the text "PENDING". */
  function ApplyCacheOf(a: ContactApply): (r: ContactApplyCache)
    ensures r.contactApplyId == a.id && r.userId == a.userId && r.createdTime == a.createdTime
    ensures r.status == PENDING.Desc()
  {
    ContactApplyCache(a.id, a.userId, PENDING.Desc(), a.createdTime)
  }

  function ApplyCacheList(rows: seq<ContactApply>): (r: seq<ContactApplyCache>)
    ensures |r| == |rows|
    ensures forall i :: 0 <= i < |rows| ==> r[i] == ApplyCacheOf(rows[i])
  {
    seq(|rows|, i requires 0 <= i < |rows| => ApplyCacheOf(rows[i]))
  }

  /** The requested ids Redis answers, with what it holds for them (placeholders included). */
  function CachedAmong(ids: seq<int>, cache: map<int, Entry<UserInfoCache>>, now: int): (r: map<int, UserInfoCache>)
    ensures forall uid :: uid in r <==> uid in ids && Lookup(cache, uid, now).Some?
    ensures forall uid :: uid in r ==> uid in cache && r[uid] == cache[uid].value
  {
    map uid | uid in ids && Lookup(cache, uid, now).Some? :: Lookup(cache, uid, now).value
  }

  /** The requested ids Redis does not answer, in request order. */
  function MissedIds(ids: seq<int>, cache: map<int, Entry<UserInfoCache>>, now: int): (r: seq<int>)
    ensures forall uid :: uid in r <==> uid in ids && Lookup(cache, uid, now).None?
  {
    Filter(ids, (uid: int) => Lookup(cache, uid, now).None?)
  }

  /** The projections of `users` keyed by id; a later row overwrites an earlier one. */
  function Projections(users: seq<User>): (m: map<int, UserInfoCache>)
    decreases |users|
  {
    if users == [] then map[]
    else Projections(users[..|users| - 1])[users[|users| - 1].id := UserInfoOf(users[|users| - 1])]
  }

  /** The keys of the projections are exactly the users' ids. */
  lemma {:induction false} ProjectionsKeys(users: seq<User>)
    ensures forall uid :: uid in Projections(users) <==> exists u :: u in users && u.id == uid
    decreases |users|
  {
    if users != [] {
      var init := users[..|users| - 1];
      var last := users[|users| - 1];
      ProjectionsKeys(init);
      assert users == init + [last];
      assert Projections(users) == Projections(init)[last.id := UserInfoOf(last)];
      forall uid | uid in Projections(users) ensures exists u :: u in users && u.id == uid {
        if uid != last.id {
          var u :| u in init && u.id == uid;
          assert u in users;
        }
      }
    }
  }

  lemma {:induction false} ProjectionsSnoc(users: seq<User>, j: int)
    requires 0 <= j < |users|
    ensures Projections(users[..j + 1]) == Projections(users[..j])[users[j].id := UserInfoOf(users[j])]
  {
    assert users[..j + 1][..j] == users[..j];
  }

  /** With unique ids, every user's entry is its own projection. */
  lemma {:induction false} ProjectionsOfUniqueIds(users: seq<User>)
    requires forall u, v :: u in users && v in users && u.id == v.id ==> u == v
    ensures forall u :: u in users ==> u.id in Projections(users) && Projections(users)[u.id] == UserInfoOf(u)
    decreases |users|
  {
    if users != [] {
      var init := users[..|users| - 1];
      var last := users[|users| - 1];
      assert forall u :: u in init ==> u in users;
      ProjectionsOfUniqueIds(init);
      forall u | u in users ensures u.id in Projections(users) && Projections(users)[u.id] == UserInfoOf(u) {
        if u.id != last.id {
          assert u != last;
          assert u in init by {
            var k :| 0 <= k < |users| && users[k] == u;
            assert k != |users| - 1;
            assert init[k] == u;
          }
        }
      }
    }
  }

  /** Where the batch read writes back: every fetched projection, with a 30-hour expiry. */
  function BatchWrites(found: map<int, UserInfoCache>, now: int): (w: map<int, Entry<UserInfoCache>>)
    ensures w.Keys == found.Keys
    ensures forall uid :: uid in w ==> w[uid] == Expiring(found[uid], USER_INFO_DURATION * SECONDS_PER_HOUR, now)
  {
    map uid | uid in found :: Expiring(found[uid], USER_INFO_DURATION * SECONDS_PER_HOUR, now)
  }

  /** One step of the multi-get loop: an id goes to the hits or to the misses. */
  lemma {:induction false} PartitionStep(ids: seq<int>, uid: int, cache: map<int, Entry<UserInfoCache>>, now: int)
    ensures Lookup(cache, uid, now).Some? ==>
      && CachedAmong(ids + [uid], cache, now) == CachedAmong(ids, cache, now)[uid := cache[uid].value]
      && MissedIds(ids + [uid], cache, now) == MissedIds(ids, cache, now)
    ensures Lookup(cache, uid, now).None? ==>
      && CachedAmong(ids + [uid], cache, now) == CachedAmong(ids, cache, now)
      && MissedIds(ids + [uid], cache, now) == MissedIds(ids, cache, now) + [uid]
  {
    var miss := (x: int) => Lookup(cache, x, now).None?;
    FilterAppend(ids, [uid], miss);
    assert [uid][1..] == [];
    assert Filter([uid], miss) == (if miss(uid) then [uid] else []);
  }

  /** The key space between `multiSet` and the last `expire`: keys still `pending` have no expiry yet. */
  function Staged(writes: map<int, UserInfoCache>, pending: set<int>, now: int): (m: map<int, Entry<UserInfoCache>>)
    ensures m.Keys == writes.Keys
  {
    map k | k in writes :: if k in pending then Entry(writes[k], None)
                           else Expiring(writes[k], USER_INFO_DURATION * SECONDS_PER_HOUR, now)
  }

  /** Right after `multiSet` nothing written has an expiry; after the last `expire` everything has. */
  lemma {:induction false} StagedEnds(writes: map<int, UserInfoCache>, now: int)
    ensures Staged(writes, writes.Keys, now) == map k | k in writes :: Entry(writes[k], None)
    ensures Staged(writes, {}, now) == BatchWrites(writes, now)
  {
  }

  /** The written keys not yet given an expiry after `expire` ran on `keys[..i]`. */
  function Pending(writes: map<int, UserInfoCache>, keys: seq<int>, i: int): set<int>
    requires 0 <= i <= |keys|
  {
    set k | k in writes && k !in keys[..i]
  }

  /** One `expire`: the key still holds its value, and now has the 30-hour expiry. */
  lemma {:induction false} StagedStep(before: map<int, Entry<UserInfoCache>>, writes: map<int, UserInfoCache>,
                                      keys: seq<int>, i: int, now: int)
    requires 0 <= i < |keys| && keys[i] in writes
    ensures Lookup(before + Staged(writes, Pending(writes, keys, i), now), keys[i], now) == Some(writes[keys[i]])
    ensures (before + Staged(writes, Pending(writes, keys, i), now))[keys[i] := Expiring(writes[keys[i]], USER_INFO_DURATION * SECONDS_PER_HOUR, now)]
            == before + Staged(writes, Pending(writes, keys, i + 1), now)
  {
    var k := keys[i];
    var m := before + Staged(writes, Pending(writes, keys, i), now);
    assert m[k] == Staged(writes, Pending(writes, keys, i), now)[k];
    assert Live(m[k], now);
    assert keys[..i + 1] == keys[..i] + [k];
    assert Pending(writes, keys, i + 1) == Pending(writes, keys, i) - {k};
  }

  lemma {:induction false} PendingEnds(writes: map<int, UserInfoCache>, keys: seq<int>)
    requires forall k :: k in keys <==> k in writes
    ensures Pending(writes, keys, 0) == writes.Keys
    ensures Pending(writes, keys, |keys|) == {}
  {
    assert keys[..|keys|] == keys;
    assert keys[..0] == [];
    var rest := Pending(writes, keys, |keys|);
    assert forall k :: k in rest ==> k in writes && k !in keys;
    assert forall k :: k !in rest;
  }

  /**
   * What the batch read returns: the hits as cached, and for the misses the
   * projections of the rows the batch query found. A requested id that
   * misses is in the result exactly when the table has that user.
   */
  lemma {:induction false} BatchResultCorrect(ids: seq<int>, cache: map<int, Entry<UserInfoCache>>, now: int,
                                              rows: seq<User>, nextId: int, users: seq<User>)
    requires UserRowsValid(rows, nextId)
    requires forall u :: u in users <==> u in rows && u.id in MissedIds(ids, cache, now)
    ensures var r := CachedAmong(ids, cache, now) + Projections(users);
      && (forall uid :: uid in r ==> uid in ids)
      && (forall uid :: uid in ids && Lookup(cache, uid, now).Some? ==> uid in r && r[uid] == cache[uid].value)
      && (forall uid :: uid in ids && Lookup(cache, uid, now).None? ==>
            (uid in r <==> exists u :: u in rows && u.id == uid))
      && (forall u :: u in rows && u.id in ids && Lookup(cache, u.id, now).None? ==>
            u.id in r && r[u.id] == UserInfoOf(u))
  {
    var hits := CachedAmong(ids, cache, now);
    var found := Projections(users);
    forall u, v | u in users && v in users && u.id == v.id ensures u == v {
      UserIdsUnique(rows, nextId, u, v);
    }
    ProjectionsOfUniqueIds(users);
    ProjectionsKeys(users);
    forall uid | uid in found ensures uid in ids && Lookup(cache, uid, now).None? {
      var u :| u in users && u.id == uid;
    }
  }

  class RedisTemplateUtil {
    const redis: RedisStore
    const contactDao: ContactDao
    const contactApplyDao: ContactApplyDao
    const userDao: UserDao
    /** How many table reads the cache layer has issued. */
    ghost var storeReads: nat

    ghost predicate Valid()
      reads userDao, contactDao, contactApplyDao
    {
      userDao.Valid() && contactDao.Valid() && contactApplyDao.Valid()
    }

    constructor (redis: RedisStore, contactDao: ContactDao, contactApplyDao: ContactApplyDao, userDao: UserDao)
      ensures this.redis == redis && this.contactDao == contactDao
      ensures this.contactApplyDao == contactApplyDao && this.userDao == userDao
      ensures storeReads == 0
    {
      this.redis := redis;
      this.contactDao := contactDao;
      this.contactApplyDao := contactApplyDao;
      this.userDao := userDao;
      storeReads := 0;
    }

    /**
     * `getUserInfoCache`: a cached projection is returned without a table
     * read, a cached placeholder as null; on a miss the row is read and its
     * projection cached for 30 minutes, or the placeholder for EMPTY_DATA
     * minutes when there is no such user.
     */
    method GetUserInfoCache(userId: int, now: int) returns (r: Option<UserInfoCache>)
      requires Valid()
      modifies this`storeReads, redis`userInfo
      ensures r.Some? ==> !IsNullPlaceholder(r.value)
      ensures Lookup(old(redis.userInfo), userId, now).Some? ==>
        && storeReads == old(storeReads)
        && redis.userInfo == old(redis.userInfo)
        && r == (if IsNullPlaceholder(old(redis.userInfo)[userId].value) then None
                 else Some(old(redis.userInfo)[userId].value))
      ensures Lookup(old(redis.userInfo), userId, now).None? ==>
        && storeReads == old(storeReads) + 1
        && (userDao.SelectById(userId).None? ==>
              r.None? &&
              redis.userInfo == old(redis.userInfo)[userId := Expiring(NULL_PLACEHOLDER, EMPTY_DATA * SECONDS_PER_MINUTE, now)])
        && (userDao.SelectById(userId).Some? ==>
              r == Some(UserInfoOf(userDao.SelectById(userId).value)) &&
              redis.userInfo == old(redis.userInfo)[userId := Expiring(r.value, USER_INFO_DURATION * SECONDS_PER_MINUTE, now)])
    {
      var cached := Lookup(redis.userInfo, userId, now);
      if cached.Some? {
        if IsNullPlaceholder(cached.value) {
          return None;
        }
        return cached;
      }
      var user := userDao.SelectById(userId);
      storeReads := storeReads + 1;
      if user.None? {
        redis.SetUserInfo(userId, NULL_PLACEHOLDER, EMPTY_DATA * SECONDS_PER_MINUTE, now);
        return None;
      }
      // the store assigns ids from 1, so a row's projection is never the placeholder
      assert user.value in userDao.rows;
      var info := UserInfoOf(user.value);
      redis.SetUserInfo(userId, info, USER_INFO_DURATION * SECONDS_PER_MINUTE, now);
      r := Some(info);
    }

    /** The first loop of `getUserInfoCacheMapByIds`: split the requested ids into hits and misses. */
    method PartitionCached(ids: seq<int>, now: int) returns (hits: map<int, UserInfoCache>, missing: seq<int>)
      ensures hits == CachedAmong(ids, redis.userInfo, now)
      ensures missing == MissedIds(ids, redis.userInfo, now)
    {
      var cache := redis.userInfo;
      hits := map[];
      missing := [];
      var i := 0;
      while i < |ids|
        invariant 0 <= i <= |ids|
        invariant hits == CachedAmong(ids[..i], cache, now)
        invariant missing == MissedIds(ids[..i], cache, now)
      {
        var uid := ids[i];
        assert ids[..i + 1] == ids[..i] + [uid];
        PartitionStep(ids[..i], uid, cache, now);
        var cached := Lookup(cache, uid, now);
        if cached.Some? {
          hits := hits[uid := cached.value];
        } else {
          missing := missing + [uid];
        }
        i := i + 1;
      }
      assert ids[..|ids|] == ids;
    }

    /** The second loop: project every fetched row, into the result and into the write-back map. */
    method ProjectFetched(hits: map<int, UserInfoCache>, users: seq<User>)
      returns (result: map<int, UserInfoCache>, writes: map<int, UserInfoCache>, keys: seq<int>)
      ensures writes == Projections(users)
      ensures result == hits + Projections(users)
      ensures forall k :: k in keys <==> k in writes
    {
      result := hits;
      writes := map[];
      keys := [];
      var j := 0;
      while j < |users|
        invariant 0 <= j <= |users|
        invariant writes == Projections(users[..j])
        invariant result == hits + writes
        invariant forall k :: k in keys <==> k in writes
      {
        var user := users[j];
        ProjectionsSnoc(users, j);
        var info := UserInfoOf(user);
        result := result[user.id := info];
        writes := writes[user.id := info];
        keys := keys + [user.id];
        j := j + 1;
      }
      assert users[..|users|] == users;
    }

    /**
     * The write-back: `multiSet` (no expiry), then `expire` each written key
     * for 30 hours; `keys` lists the keys of `writes` in some order.
     */
    method WriteBack(writes: map<int, UserInfoCache>, keys: seq<int>, now: int)
      requires forall k :: k in keys <==> k in writes
      modifies redis`userInfo
      ensures redis.userInfo == old(redis.userInfo) + BatchWrites(writes, now)
    {
      var ttl := USER_INFO_DURATION * SECONDS_PER_HOUR;
      redis.MultiSetUserInfo(writes);
      ghost var before := old(redis.userInfo);
      StagedEnds(writes, now);
      PendingEnds(writes, keys);
      var i := 0;
      while i < |keys|
        invariant 0 <= i <= |keys|
        invariant redis.userInfo == before + Staged(writes, Pending(writes, keys, i), now)
      {
        StagedStep(before, writes, keys, i, now);
        var _ := redis.ExpireUserInfo(keys[i], ttl, now);
        i := i + 1;
      }
    }

    /**
     * The value `getUserInfoCacheMapByIds` yields for one requested id: the
     * live cached entry (the missing-user marker included), else the
     * projection of the stored row, else nothing.
     */
    function BatchEntry(userId: int, cache: map<int, Entry<UserInfoCache>>, now: int): (r: Option<UserInfoCache>)
      reads userDao
      ensures Lookup(cache, userId, now).Some? ==> r == Lookup(cache, userId, now)
      ensures Lookup(cache, userId, now).None? ==>
        (r.Some? <==> userDao.SelectById(userId).Some?) &&
        (r.Some? ==> r.value == UserInfoOf(userDao.SelectById(userId).value))
    {
      if Lookup(cache, userId, now).Some? then Lookup(cache, userId, now)
      else if userDao.SelectById(userId).Some? then Some(UserInfoOf(userDao.SelectById(userId).value))
      else None
    }

    /**
     * `getUserInfoCacheMapByIds`: one multi-get, one batch query for the
     * misses, one write-back. Every id Redis answers is in the result with
     * what Redis holds (a placeholder included); every missed id is in the
     * result exactly when the table has that user, with its projection.
     */
    method GetUserInfoCacheMapByIds(userIds: Option<seq<int>>, now: int) returns (r: map<int, UserInfoCache>)
      requires Valid()
      modifies this`storeReads, redis`userInfo
      ensures userIds.None? || userIds.value == [] ==>
        r == map[] && storeReads == old(storeReads) && redis.userInfo == old(redis.userInfo)
      ensures forall uid :: uid in r ==> userIds.Some? && uid in userIds.value
      ensures forall uid :: userIds.Some? && uid in userIds.value && Lookup(old(redis.userInfo), uid, now).Some? ==>
        uid in r && r[uid] == old(redis.userInfo)[uid].value
      ensures forall uid :: userIds.Some? && uid in userIds.value && Lookup(old(redis.userInfo), uid, now).None? ==>
        && (uid in r <==> userDao.SelectById(uid).Some?)
        && (uid in r ==> r[uid] == UserInfoOf(userDao.SelectById(uid).value))
      ensures userIds.Some? ==>
        && storeReads == old(storeReads) + (if MissedIds(userIds.value, old(redis.userInfo), now) == [] then 0 else 1)
        && redis.userInfo == old(redis.userInfo) +
             BatchWrites(Projections(userDao.SelectBatchIds(MissedIds(userIds.value, old(redis.userInfo), now))), now)
    {
      if userIds.None? || userIds.value == [] {
        return map[];
      }
      var ids := userIds.value;
      var hits, missing := PartitionCached(ids, now);
      r := hits;
      var users: seq<User> := [];
      if missing != [] {
        users := userDao.SelectBatchIds(missing);
        storeReads := storeReads + 1;
        if users != [] {
          var writes, keys;
          r, writes, keys := ProjectFetched(hits, users);
          WriteBack(writes, keys, now);
        }
      }
      assert r == hits + Projections(users);
      BatchResultCorrect(ids, old(redis.userInfo), now, userDao.rows, userDao.nextId, users);
      forall uid | uid in ids && Lookup(old(redis.userInfo), uid, now).None? && userDao.SelectById(uid).Some?
        ensures uid in r && r[uid] == UserInfoOf(userDao.SelectById(uid).value)
      {
        assert userDao.SelectById(uid).value in userDao.rows;
      }
    }

    /** `deleteUserInfoCache`. */
    method DeleteUserInfoCache(userId: int)
      modifies redis`userInfo
      ensures redis.userInfo == old(redis.userInfo) - {userId}
    {
      redis.DeleteUserInfo(userId);
    }

    /**
     * `getContactCache`: the cached relation list (an empty list is the
     * "no contacts" marker), or on a miss the caller's rows projected and
     * cached for USER_CONTACTS_INFO_DURATION (30) minutes, or the empty
     * marker for EMPTY_DATA minutes.
     */
    method GetContactCache(userId: int, now: int) returns (r: seq<ContactsCache>)
      modifies this`storeReads, redis`contacts
      ensures Lookup(old(redis.contacts), userId, now).Some? ==>
        && r == old(redis.contacts)[userId].value
        && storeReads == old(storeReads) && redis.contacts == old(redis.contacts)
      ensures Lookup(old(redis.contacts), userId, now).None? ==>
        && r == ContactsCacheList(contactDao.List(userId))
        && storeReads == old(storeReads) + 1
        && redis.contacts == old(redis.contacts)[userId :=
             Expiring(r, (if r == [] then EMPTY_DATA else USER_CONTACTS_INFO_DURATION) * SECONDS_PER_MINUTE, now)]
    {
      var cached := Lookup(redis.contacts, userId, now);
      if cached.Some? {
        if cached.value == [] {
          return [];
        }
        return cached.value;
      }
      var rows := contactDao.List(userId);
      storeReads := storeReads + 1;
      if rows == [] {
        redis.SetContacts(userId, [], EMPTY_DATA * SECONDS_PER_MINUTE, now);
        return [];
      }
      r := ContactsCacheList(rows);
      redis.SetContacts(userId, r, USER_CONTACTS_INFO_DURATION * SECONDS_PER_MINUTE, now);
    }

    /** `deleteContactCache(Long)`. */
    method DeleteContactCache(userId: int)
      modifies redis`contacts
      ensures redis.contacts == old(redis.contacts) - {userId}
    {
      redis.DeleteContacts({userId});
    }

    /** `deleteContactCache(Collection)`: nothing for a null or empty collection. */
    method DeleteContactCaches(userIds: Option<seq<int>>)
      modifies redis`contacts
      ensures userIds.None? ==> redis.contacts == old(redis.contacts)
      ensures userIds.Some? ==> redis.contacts == old(redis.contacts) - set uid | uid in userIds.value
    {
      if userIds.None? || userIds.value == [] {
        return;
      }
      redis.DeleteContacts(set uid | uid in userIds.value);
    }

    /**
     * `getContactApplyCache`: the pending applies addressed to `userId`,
     * newest first, as cached; on a miss read with `selectApplyList`.
     */
    method GetContactApplyCache(userId: int, now: int) returns (r: seq<ContactApplyCache>)
      modifies this`storeReads, redis`applies
      ensures Lookup(old(redis.applies), userId, now).Some? ==>
        && r == old(redis.applies)[userId].value
        && storeReads == old(storeReads) && redis.applies == old(redis.applies)
      ensures Lookup(old(redis.applies), userId, now).None? ==>
        && r == ApplyCacheList(contactApplyDao.SelectApplyList(userId, PENDING))
        && storeReads == old(storeReads) + 1
        && redis.applies == old(redis.applies)[userId :=
             Expiring(r, (if r == [] then EMPTY_DATA else USER_CONTACT_APPLIES_DURATION) * SECONDS_PER_MINUTE, now)]
    {
      var cached := Lookup(redis.applies, userId, now);
      if cached.Some? {
        if cached.value == [] {
          return [];
        }
        return cached.value;
      }
      var rows := contactApplyDao.SelectApplyList(userId, PENDING);
      storeReads := storeReads + 1;
      if rows == [] {
        redis.SetApplies(userId, [], EMPTY_DATA * SECONDS_PER_MINUTE, now);
        return [];
      }
      r := ApplyCacheList(rows);
      redis.SetApplies(userId, r, USER_CONTACT_APPLIES_DURATION * SECONDS_PER_MINUTE, now);
    }

    /** `deleteContactApplyCache`. */
    method DeleteContactApplyCache(userId: int)
      modifies redis`applies
      ensures redis.applies == old(redis.applies) - {userId}
    {
      redis.DeleteApplies(userId);
    }
  }

  /** A fresh contact-list entry names a friend exactly when the user's table has a contact row for them. */
  lemma {:induction false} ContactCacheIsOwnRelations(dao: ContactDao, userId: int, friendId: int)
    ensures var list := ContactsCacheList(dao.List(userId));
      (exists k :: 0 <= k < |list| && list[k].friendId == friendId) <==>
      (exists c :: c in dao.rows && c.userId == userId && c.friendId == friendId)
  {
    var rows := dao.List(userId);
    var list := ContactsCacheList(rows);
    if exists c :: c in dao.rows && c.userId == userId && c.friendId == friendId {
      var c :| c in dao.rows && c.userId == userId && c.friendId == friendId;
      assert c in rows;
      var k :| 0 <= k < |rows| && rows[k] == c;
      assert list[k].friendId == friendId;
    }
    if exists k :: 0 <= k < |list| && list[k].friendId == friendId {
      var k :| 0 <= k < |list| && list[k].friendId == friendId;
      assert rows[k] in rows;
    }
  }

  /** The cache entry stands for a pending apply row addressed to `userId`. */
  ghost predicate FromPendingApply(rows: seq<ContactApply>, userId: int, e: ContactApplyCache) {
    exists a :: a in rows && a.id == e.contactApplyId && a.friendId == userId && a.status == PENDING && a.userId == e.userId
  }

  /** A fresh apply-list entry is sorted newest first and names only pending applies to `userId`. */
  lemma {:induction false} ApplyCacheIsPendingInbox(dao: ContactApplyDao, userId: int)
    ensures var list := ApplyCacheList(dao.SelectApplyList(userId, PENDING));
      && (forall k :: 0 <= k < |list| ==> list[k].status == "PENDING")
      && (forall k :: 0 <= k < |list| ==> FromPendingApply(dao.rows, userId, list[k]))
      && (forall i, j :: 0 <= i < j < |list| ==> NotBefore(list[i].createdTime, list[j].createdTime))
  {
    var rows := dao.SelectApplyList(userId, PENDING);
    var list := ApplyCacheList(rows);
    forall k | 0 <= k < |list|
      ensures list[k].status == "PENDING"
      ensures FromPendingApply(dao.rows, userId, list[k])
    {
      var a := rows[k];
      assert a in rows;
      assert a in dao.rows && a.friendId == userId && a.status == PENDING;
      assert list[k] == ApplyCacheOf(a);
      assert a.id == list[k].contactApplyId && a.userId == list[k].userId;
    }
    forall i, j | 0 <= i < j < |list| ensures NotBefore(list[i].createdTime, list[j].createdTime) {
      assert NotBefore(ApplyCreated(rows[i]), ApplyCreated(rows[j]));
    }
  }
}
