/**
 * `ContactServiceImpl`: a user's contact list, and deleting or renaming
 * one of its entries. A contact row belongs to the user who lists it; the
 * friend's mirror row is a different row that these operations never
 * touch. `fault` names the table write, counted from 0, that throws, if
 * any; the transaction then rolls back.
 */
module Contacts {
  import opened Wrappers
  import opened Failures
  import opened Entities
  import opened Query
  import opened Dao
  import opened Redis
  import opened CacheLayer

  /** `UpdateContactDTO`: the contact row's id and the new remark. */
  datatype UpdateContactDTO = UpdateContactDTO(contactId: int, remark: Option<string>)

  /** The card for one relation: its ids and remark, and the friend's profile when one was found. */
  function ContactVOOf(relation: ContactsCache, info: Option<UserInfoCache>): (vo: ContactVO)
    ensures vo.id == relation.contactId && vo.userId == relation.friendId && vo.remark == relation.remark
    ensures info.Some? ==>
      vo.username == info.value.username && vo.nickname == info.value.nickname &&
      vo.avatar == info.value.avatar && vo.bio == info.value.bio
    ensures info.None? ==> vo.username.None? && vo.nickname.None? && vo.avatar.None? && vo.bio.None?
  {
    ContactVO(relation.contactId, relation.friendId,
      if info.Some? then info.value.username else None,
      if info.Some? then info.value.nickname else None,
      if info.Some? then info.value.avatar else None,
      relation.remark,
      if info.Some? then info.value.bio else None)
  }

  /** The remark `update` stores: the given one when it is non-empty, otherwise the empty string. */
  function RemarkOf(remark: Option<string>): (r: string)
    ensures remark.Some? && remark.value != [] ==> r == remark.value
    ensures remark.None? || remark.value == [] ==> r == []
  {
    if remark.Some? && remark.value != [] then remark.value else ""
  }

  /** What `delete` asks `updateSettings` to write: the caller's membership, deleted and (the primitive default) not muted. */
  function LeaveSettings(conversationId: int, userId: int): (s: MemberSettings)
    ensures s.conversationId == conversationId && s.userId == Some(userId)
    ensures s.isDeleted && !s.isMuted
    ensures s.role.None? && s.lastReadMessageId.None? && s.joinedTime.None?
  {
    MemberSettings(conversationId, Some(userId), None, false, true, None, None)
  }

  /** The user `getUserInfo` assembles from a cached projection; the other columns keep their Java defaults. */
  function UserFromInfo(userId: int, info: UserInfoCache): (u: User)
    ensures u.id == userId && u.status == 0
    ensures u.createTime.None? && u.updateTime.None? && u.lastLoginTime.None?
    ensures UserInfoOf(u) == info.(userId := Some(userId))
  {
    User(userId, info.username, info.nickname, info.avatar, info.gender, info.bio, 0, None, None, None)
  }

  class ContactServiceImpl {
    const contactDao: ContactDao
    const userDao: UserDao
    const conversationMemberDao: ConversationMemberDao
    const redisTemplateUtil: RedisTemplateUtil

    ghost predicate Valid()
      reads this, contactDao, userDao, conversationMemberDao, redisTemplateUtil, redisTemplateUtil.userDao,
        redisTemplateUtil.contactDao, redisTemplateUtil.contactApplyDao
    {
      && contactDao.Valid() && userDao.Valid() && conversationMemberDao.Valid() && redisTemplateUtil.Valid()
      && redisTemplateUtil.contactDao == contactDao && redisTemplateUtil.userDao == userDao
    }

    constructor (contactDao: ContactDao, userDao: UserDao, conversationMemberDao: ConversationMemberDao, redisTemplateUtil: RedisTemplateUtil)
      ensures this.contactDao == contactDao && this.userDao == userDao
      ensures this.conversationMemberDao == conversationMemberDao && this.redisTemplateUtil == redisTemplateUtil
    {
      this.contactDao := contactDao;
      this.userDao := userDao;
      this.conversationMemberDao := conversationMemberDao;
      this.redisTemplateUtil := redisTemplateUtil;
    }

    /**
     * `list`: the caller's relations from the contact-list cache (read
     * through on a miss), one card each in the same order, each with the
     * friend's cached or stored profile.
     */
    method List(userId: int, now: int) returns (r: seq<ContactVO>)
      requires Valid()
      modifies redisTemplateUtil`storeReads, redisTemplateUtil.redis`contacts, redisTemplateUtil.redis`userInfo
      ensures Valid()
      ensures var relations := if Lookup(old(redisTemplateUtil.redis.contacts), userId, now).Some?
          then old(redisTemplateUtil.redis.contacts)[userId].value
          else ContactsCacheList(contactDao.List(userId));
        && |r| == |relations|
        && forall k :: 0 <= k < |r| ==>
             r[k] == ContactVOOf(relations[k], redisTemplateUtil.BatchEntry(relations[k].friendId, old(redisTemplateUtil.redis.userInfo), now))
    {
      var relations := redisTemplateUtil.GetContactCache(userId, now);
      if relations == [] {
        return [];
      }
      var friendIds := seq(|relations|, k requires 0 <= k < |relations| => relations[k].friendId);
      var userInfoMap := redisTemplateUtil.GetUserInfoCacheMapByIds(Some(friendIds), now);
      r := seq(|relations|, k requires 0 <= k < |relations| =>
        ContactVOOf(relations[k], if relations[k].friendId in userInfoMap then Some(userInfoMap[relations[k].friendId]) else None));
      forall k | 0 <= k < |r|
        ensures r[k] == ContactVOOf(relations[k], redisTemplateUtil.BatchEntry(relations[k].friendId, old(redisTemplateUtil.redis.userInfo), now))
      {
        assert relations[k].friendId == friendIds[k];
      }
    }

    /** The checks `delete` and `update` share: the row exists and is the caller's own. */
    function OwnContact(id: int, userId: int): (r: Result<Contact, Failure>)
      reads contactDao
      ensures contactDao.SelectById(id).None? ==> r == Err(ContactError(NOT_EXIST_CODE, CONTACT_NOT_EXIST_MSG))
      ensures contactDao.SelectById(id).Some? && contactDao.SelectById(id).value.userId != userId ==>
        r == Err(ContactError(NOT_ALLOWED_CODE, NOT_ALLOWED_MSG))
      ensures r.Ok? <==> contactDao.SelectById(id).Some? && contactDao.SelectById(id).value.userId == userId
      ensures r.Ok? ==> r.value in contactDao.rows && r.value.id == id && r.value.userId == userId
    {
      match contactDao.SelectById(id)
      case None => Err(ContactError(NOT_EXIST_CODE, CONTACT_NOT_EXIST_MSG))
      case Some(c) => if c.userId != userId then Err(ContactError(NOT_ALLOWED_CODE, NOT_ALLOWED_MSG)) else Ok(c)
    }

    /**
     * `delete`: after the ownership check and a check that the row names
     * its conversation, removes the caller's row and marks the caller's
     * membership deleted, in one transaction; the caller's contact-list
     * cache is dropped only once it commits. The friend's row stays.
     */
    method Delete(id: int, userId: int, fault: Option<nat>) returns (r: Result<bool, Failure>)
      requires Valid()
      modifies contactDao`rows, conversationMemberDao`rows, redisTemplateUtil.redis`contacts
      ensures Valid()
      ensures old(OwnContact(id, userId)).Err? ==> r == Err(old(OwnContact(id, userId)).error)
      ensures old(OwnContact(id, userId)).Ok? && old(OwnContact(id, userId)).value.conversationId.None? ==>
        r == Err(ContactError(NOT_EXIST_CODE, CONVERSATION_NOT_EXIST_MSG))
      ensures r.Err? ==>
        && contactDao.rows == old(contactDao.rows) && conversationMemberDao.rows == old(conversationMemberDao.rows)
        && redisTemplateUtil.redis.contacts == old(redisTemplateUtil.redis.contacts)
      ensures old(OwnContact(id, userId)).Ok? && old(OwnContact(id, userId)).value.conversationId.Some? ==>
        var conversationId := old(OwnContact(id, userId)).value.conversationId.value;
        && (r.Err? <==> fault.Some? && fault.value < 2)
        && (r.Err? ==> r.error == StoreFailure)
        && (r.Ok? ==>
              && r.value
              && contactDao.rows == Filter(old(contactDao.rows), (c: Contact) => c.id != id)
              && conversationMemberDao.rows == UpdateWhere(old(conversationMemberDao.rows),
                   (m: ConversationMember) => SettingsMatch(m, LeaveSettings(conversationId, userId)),
                   (m: ConversationMember) => ApplySettings(m, LeaveSettings(conversationId, userId)))
              && redisTemplateUtil.redis.contacts == old(redisTemplateUtil.redis.contacts) - {userId})
    {
      var check := OwnContact(id, userId);
      if check.Err? {
        return Err(check.error);
      }
      var contact := check.value;
      if contact.conversationId.None? {
        return Err(ContactError(NOT_EXIST_CODE, CONVERSATION_NOT_EXIST_MSG));
      }
      var conversationId := contact.conversationId.value;
      var savedContacts, savedMembers := contactDao.rows, conversationMemberDao.rows;
      if fault == Some(0) {
        return Err(StoreFailure);
      }
      contactDao.Delete(contact.id);
      if fault == Some(1) {
        contactDao.Restore(savedContacts);
        return Err(StoreFailure);
      }
      var _ := conversationMemberDao.UpdateSettings(LeaveSettings(conversationId, userId));
      // afterCommit
      redisTemplateUtil.DeleteContactCache(userId);
      r := Ok(true);
    }

    /**
     * `update`: after the ownership check, sets the row's remark (an
     * absent or empty remark clears it to "") and writes the row back, then
     * drops the caller's contact-list cache.
     */
    method Update(dto: UpdateContactDTO, userId: int, fault: Option<nat>) returns (r: Result<bool, Failure>)
      requires Valid()
      modifies contactDao`rows, redisTemplateUtil.redis`contacts
      ensures Valid()
      ensures old(OwnContact(dto.contactId, userId)).Err? ==> r == Err(old(OwnContact(dto.contactId, userId)).error)
      ensures r.Err? ==> contactDao.rows == old(contactDao.rows) && redisTemplateUtil.redis.contacts == old(redisTemplateUtil.redis.contacts)
      ensures old(OwnContact(dto.contactId, userId)).Ok? ==>
        var renamed := old(OwnContact(dto.contactId, userId)).value.(remark := Some(RemarkOf(dto.remark)));
        && (r.Err? <==> fault == Some(0))
        && (r.Err? ==> r.error == StoreFailure)
        && (r.Ok? ==>
              && r.value
              && contactDao.rows == UpdateWhere(old(contactDao.rows), (c: Contact) => c.id == renamed.id,
                                                (c: Contact) => PatchContact(c, renamed))
              && redisTemplateUtil.redis.contacts == old(redisTemplateUtil.redis.contacts) - {userId})
    {
      var check := OwnContact(dto.contactId, userId);
      if check.Err? {
        return Err(check.error);
      }
      var contact := check.value;
      if dto.remark.Some? && dto.remark.value != [] {
        contact := contact.(remark := dto.remark);
      } else {
        contact := contact.(remark := Some(""));
      }
      assert contact == check.value.(remark := Some(RemarkOf(dto.remark)));
      if fault == Some(0) {
        return Err(StoreFailure);
      }
      UpdateWrites(contact, userId);
      assert check == old(OwnContact(dto.contactId, userId));
      r := Ok(true);
    }

    /** The writes of `update`: the row goes back by id, then the caller's contact-list cache is dropped. */
    method UpdateWrites(contact: Contact, userId: int)
      requires Valid()
      modifies contactDao`rows, redisTemplateUtil.redis`contacts
      ensures Valid()
      ensures contactDao.rows == UpdateWhere(old(contactDao.rows), (c: Contact) => c.id == contact.id,
                                             (c: Contact) => PatchContact(c, contact))
      ensures redisTemplateUtil.redis.contacts == old(redisTemplateUtil.redis.contacts) - {userId}
    {
      contactDao.UpdateById(contact);
      redisTemplateUtil.DeleteContactCache(userId);
    }

    /**
     * `getUserInfo`: the user assembled from the `user:info:` entry when
     * Redis has one (the missing-user marker included), else from the row,
     * whose projection is then cached for 30 minutes plus `jitterMinutes`
     * (`Math.random() * 10`, truncated). With neither, dereferencing the
     * null row throws.
     */
    method GetUserInfo(userId: int, now: int, jitterMinutes: int) returns (r: Result<User, Failure>)
      requires Valid()
      requires 0 <= jitterMinutes < 10
      modifies redisTemplateUtil.redis`userInfo
      ensures Valid()
      ensures Lookup(old(redisTemplateUtil.redis.userInfo), userId, now).Some? ==>
        && r == Ok(UserFromInfo(userId, old(redisTemplateUtil.redis.userInfo)[userId].value))
        && redisTemplateUtil.redis.userInfo == old(redisTemplateUtil.redis.userInfo)
      ensures Lookup(old(redisTemplateUtil.redis.userInfo), userId, now).None? && userDao.SelectById(userId).None? ==>
        r == Err(NullPointer) && redisTemplateUtil.redis.userInfo == old(redisTemplateUtil.redis.userInfo)
      ensures Lookup(old(redisTemplateUtil.redis.userInfo), userId, now).None? && userDao.SelectById(userId).Some? ==>
        && r == Ok(UserFromInfo(userId, UserInfoOf(userDao.SelectById(userId).value)))
        && redisTemplateUtil.redis.userInfo == old(redisTemplateUtil.redis.userInfo)[userId :=
             Expiring(UserInfoOf(userDao.SelectById(userId).value), (USER_INFO_DURATION + jitterMinutes) * SECONDS_PER_MINUTE, now)]
    {
      var cached := Lookup(redisTemplateUtil.redis.userInfo, userId, now);
      if cached.Some? {
        return Ok(UserFromInfo(userId, cached.value));
      }
      var row := userDao.SelectById(userId);
      if row.None? {
        return Err(NullPointer);
      }
      var user := UserFromInfo(userId, UserInfoOf(row.value));
      var info := UserInfoOf(user);
      redisTemplateUtil.redis.userInfo := redisTemplateUtil.redis.userInfo[userId :=
        Expiring(info, (USER_INFO_DURATION + jitterMinutes) * SECONDS_PER_MINUTE, now)];
      r := Ok(user);
    }
  }

  /**
   * `getUserInfo` returns the row's own profile: the id and the six cached
   * columns agree with the stored user.
   */
  lemma {:induction false} UserInfoMatchesRow(u: User)
    ensures var v := UserFromInfo(u.id, UserInfoOf(u));
      v.id == u.id && v.username == u.username && v.nickname == u.nickname && v.avatar == u.avatar &&
      v.gender == u.gender && v.bio == u.bio
  {
  }

  /**
   * Deleting one's own contact row removes exactly that row: the friend's
   * mirror row (B lists A) survives, so B still sees A.
   */
  lemma {:induction false} DeleteKeepsMirror(rows: seq<Contact>, nextId: int, c: Contact)
    requires ContactRowsValid(rows, nextId) && c in rows && c.userId != c.friendId
    ensures var after := Filter(rows, (x: Contact) => x.id != c.id);
      && c !in after
      && (forall x :: x in rows && x.userId == c.friendId && x.friendId == c.userId ==> x in after)
      && |after| == |rows| - 1
  {
    DeleteByIdRemovesOnlyThatRow(rows, nextId, c.id);
    var after := Filter(rows, (x: Contact) => x.id != c.id);
    forall x | x in rows && x.userId == c.friendId && x.friendId == c.userId
      ensures x in after
    {
      var i :| 0 <= i < |rows| && rows[i] == x;
      var j :| 0 <= j < |rows| && rows[j] == c;
      assert i != j;
    }
  }

  /**
   * Leaving a conversation through `delete` marks the caller's membership
   * deleted and, because `isMuted` is a primitive written as false, also
   * unmutes it; every other membership is unchanged.
   */
  lemma {:induction false} LeaveUnmutes(rows: seq<ConversationMember>, conversationId: int, userId: int)
    ensures var after := UpdateWhere(rows, (m: ConversationMember) => SettingsMatch(m, LeaveSettings(conversationId, userId)),
                                     (m: ConversationMember) => ApplySettings(m, LeaveSettings(conversationId, userId)));
      && |after| == |rows|
      && (forall i :: 0 <= i < |rows| && MemberOf(rows[i], conversationId, userId) ==>
            after[i].isDeleted && !after[i].isMuted && after[i].id == rows[i].id && after[i].role == rows[i].role &&
            after[i].lastReadMessageId == rows[i].lastReadMessageId && after[i].joinedTime == rows[i].joinedTime)
      && (forall i :: 0 <= i < |rows| && !MemberOf(rows[i], conversationId, userId) ==> after[i] == rows[i])
  {
    var s := LeaveSettings(conversationId, userId);
    forall i | 0 <= i < |rows|
      ensures SettingsMatch(rows[i], s) <==> MemberOf(rows[i], conversationId, userId)
    {
    }
  }

  /** Renaming a contact row the caller just loaded changes that row's remark and nothing else. */
  lemma {:induction false} UpdateRemarkOnLoadedRow(rows: seq<Contact>, nextId: int, c: Contact, remark: Option<string>)
    requires ContactRowsValid(rows, nextId) && c in rows
    ensures var renamed := c.(remark := Some(RemarkOf(remark)));
      var after := UpdateWhere(rows, (x: Contact) => x.id == renamed.id, (x: Contact) => PatchContact(x, renamed));
      forall i :: 0 <= i < |rows| ==> after[i] == if rows[i] == c then renamed else rows[i]
  {
    forall i | 0 <= i < |rows|
      ensures rows[i].id == c.id <==> rows[i] == c
    {
      if rows[i].id == c.id {
        var j :| 0 <= j < |rows| && rows[j] == c;
        assert i == j;
      }
    }
  }
}
