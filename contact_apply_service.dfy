/**
 * `ContactApplyServiceImpl`: friend requests. A request ("apply") from
 * user A to user B is a row (A, B, status); proposing moves the pair to
 * PENDING, and B handles it: REJECTED, or ACCEPTED, which also opens a
 * private conversation with both users as members and records the
 * friendship in both directions.
 *
 * Both state-changing operations run under a `@FrequencyLock` (the outer
 * advice) around a `@Transactional` body: the lock is taken first, the
 * tables change all-or-nothing, and the lock is released whatever the
 * outcome. `fault` names the table write, counted from 0, that throws, if
 * any; Redis is outside the transaction.
 */
module ContactApplies {
  import opened Wrappers
  import opened Failures
  import opened Enums
  import opened Entities
  import opened Query
  import opened Dao
  import opened Redis
  import opened CacheLayer
  import opened FrequencyLocking
  import opened Users
  import opened Text

  const APPLY_LOCK_MSG: string := "请勿重复提交申请"
  const HANDLE_LOCK_MSG: string := "该申请正在处理中"
  const UNKNOWN_SENDER_NICKNAME: string := "未知用户"

  /** `is_read` of a freshly inserted apply: the entity has no such field, so the column default applies. */
  const INSERTED_IS_READ: bool

  /** The two annotations: no waiting, the default lease. */
  const APPLY_LOCK: FrequencyLock :=
    FrequencyLock("'lock:contact:apply:' + #userId + ':' + #contactUserName", 0, DEFAULT_LEASE_TIME, APPLY_LOCK_MSG)
  const HANDLE_LOCK: FrequencyLock :=
    FrequencyLock("'lock:contact:handle:' + #dto.contactId", DEFAULT_WAIT_TIME, DEFAULT_LEASE_TIME, HANDLE_LOCK_MSG)

  /** The value of the propose key expression for the method's arguments. */
  function ApplyLockKey(userId: int, contactUserName: string): (key: string)
    ensures StartsWith(key, "lock:contact:apply:")
  {
    "lock:contact:apply:" + IntText(userId) + ":" + contactUserName
  }

  /** The value of the handle key expression: one lock per apply id. */
  function HandleLockKey(applyId: int): (key: string)
    ensures StartsWith(key, "lock:contact:handle:")
  {
    "lock:contact:handle:" + IntText(applyId)
  }

  /**
   * The aspect finds parameter names for both annotated methods, so each
   * key expression evaluates to the key functions above.
   */
  lemma {:induction false} LockKeysParsed(userId: int, contactUserName: string, dto: ContactApplyHandleDTO)
    ensures ParseSpelKey(APPLY_LOCK.key, Some(["userId", "contactUserName"]), Some(ApplyLockKey(userId, contactUserName)))
      == ApplyLockKey(userId, contactUserName)
    ensures ParseSpelKey(HANDLE_LOCK.key, Some(["userId", "dto"]), Some(HandleLockKey(dto.contactId))) == HandleLockKey(dto.contactId)
  {
    assert APPLY_LOCK.key[24] == '#';
    assert HANDLE_LOCK.key[25] == '#';
  }

  /** In a propose key, the user id's text runs from the prefix up to the first ':'. */
  lemma {:induction false} ApplyLockKeyShape(userId: int, contactUserName: string)
    ensures var key, t := ApplyLockKey(userId, contactUserName), IntText(userId);
      && |key| == 19 + |t| + 1 + |contactUserName|
      && key[19 + |t|] == ':'
      && (forall j :: 19 <= j < 19 + |t| ==> key[j] != ':')
  {
    var key, t := ApplyLockKey(userId, contactUserName), IntText(userId);
    forall j | 19 <= j < 19 + |t|
      ensures key[j] != ':'
    {
      assert key[j] == t[j - 19];
    }
  }

  /** Two proposals contend for the same lock only when they come from the same user for the same name. */
  lemma {:induction false} ApplyLockKeyInjective(u1: int, n1: string, u2: int, n2: string)
    requires ApplyLockKey(u1, n1) == ApplyLockKey(u2, n2)
    ensures u1 == u2 && n1 == n2
  {
    var p := "lock:contact:apply:";
    var t1, t2 := IntText(u1), IntText(u2);
    var k1, k2 := ApplyLockKey(u1, n1), ApplyLockKey(u2, n2);
    assert k1 == p + t1 + ":" + n1 && k2 == p + t2 + ":" + n2;
    // the number ends at the first ':' after the prefix, since digits and '-' are not ':'
    ApplyLockKeyShape(u1, n1);
    ApplyLockKeyShape(u2, n2);
    assert |t1| == |t2|;
    assert t1 == k1[|p|..|p| + |t1|] == k2[|p|..|p| + |t2|] == t2;
    IntTextInjective(u1, u2);
    assert n1 == k1[|p| + |t1| + 1..] == k2[|p| + |t2| + 1..] == n2;
  }

  /** Handling two different applies takes two different locks. */
  lemma {:induction false} HandleLockKeyInjective(a: int, b: int)
    requires HandleLockKey(a) == HandleLockKey(b)
    ensures a == b
  {
    var p := "lock:contact:handle:";
    assert IntText(a) == HandleLockKey(a)[|p|..] == HandleLockKey(b)[|p|..] == IntText(b);
    IntTextInjective(a, b);
  }

  /** Proposing never contends with handling: the key families are disjoint. */
  lemma {:induction false} LockKeysDisjoint(userId: int, contactUserName: string, applyId: int)
    ensures ApplyLockKey(userId, contactUserName) != HandleLockKey(applyId)
  {
    assert ApplyLockKey(userId, contactUserName)[13] == 'a';
    assert HandleLockKey(applyId)[13] == 'h';
  }

  /** `ContactApplyHandleDTO`: `contactId` carries the apply's id. */
  datatype ContactApplyHandleDTO = ContactApplyHandleDTO(contactId: int, agree: bool)

  /** No two applies for the same ordered pair (A, B). */
  predicate PairsUnique(rows: seq<ContactApply>) {
    forall i, j :: 0 <= i < j < |rows| ==> !(rows[i].userId == rows[j].userId && rows[i].friendId == rows[j].friendId)
  }

  /**
   * The apply table after a proposal from `userId` to `contactId` passed
   * its checks: a new PENDING row when the pair has none, the old row
   * revived as PENDING with a fresh time when it was handled, and nothing
   * when it is already pending.
   */
  function ProposedRows(rows: seq<ContactApply>, userId: int, contactId: int, now: int, newId: int): seq<ContactApply>
  {
    match SelectOne(rows, (a: ContactApply) => a.userId == userId && a.friendId == contactId)
    case NoRow => rows + [ContactApply(newId, userId, contactId, PENDING, INSERTED_IS_READ, Some(now))]
    case OneRow(e) =>
      if e.status != PENDING then
        var revived := e.(status := PENDING, createdTime := Some(now));
        UpdateWhere(rows, (a: ContactApply) => a.id == revived.id, (a: ContactApply) => PatchApply(a, revived))
      else rows
    case TooMany => rows
  }

  /** Whether the proposal writes to the table (it does not for an apply already pending). */
  predicate ProposalWrites(rows: seq<ContactApply>, userId: int, contactId: int) {
    var found := SelectOne(rows, (a: ContactApply) => a.userId == userId && a.friendId == contactId);
    found.NoRow? || (found.OneRow? && found.row.status != PENDING)
  }

  /** The ACCEPTED (or REJECTED) apply written back: same row, new status. */
  function HandledRows(rows: seq<ContactApply>, apply: ContactApply, status: ContactApplyStatus): seq<ContactApply>
  {
    var handled := apply.(status := status);
    UpdateWhere(rows, (a: ContactApply) => a.id == handled.id, (a: ContactApply) => PatchApply(a, handled))
  }

  /** The private conversation an acceptance opens. */
  function PrivateConversation(id: int, now: int): (c: Conversation)
    ensures c.id == id && c.ctype == PRIVATE && c.status == NORMAL
    ensures c.title.None? && c.ownerId.None?
    ensures c.createdTime == c.updatedTime == Some(now)
  {
    Conversation(id, PRIVATE, None, None, NORMAL, Some(now), Some(now))
  }

  /** The friendship rows: A lists B, and B lists A, over the same conversation. */
  function MirroredContacts(apply: ContactApply, conversationId: int, firstId: int, now: int): (cs: seq<Contact>)
    ensures |cs| == 2 && cs[0].id == firstId && cs[1].id == firstId + 1
    ensures cs[0].userId == cs[1].friendId == apply.userId && cs[0].friendId == cs[1].userId == apply.friendId
    ensures forall c :: c in cs ==> c.conversationId == Some(conversationId) && c.remark.None? && c.createdTime == Some(now)
  {
    [Contact(firstId, apply.userId, apply.friendId, Some(conversationId), None, Some(now)),
     Contact(firstId + 1, apply.friendId, apply.userId, Some(conversationId), None, Some(now))]
  }

  /** The two members of the new conversation, with the column defaults. */
  function MemberPair(apply: ContactApply, conversationId: int, firstId: int, now: int): (ms: seq<ConversationMember>)
    ensures |ms| == 2 && ms[0].id == firstId && ms[1].id == firstId + 1
    ensures ms[0].userId == apply.userId && ms[1].userId == apply.friendId
    ensures forall m :: m in ms ==> m.conversationId == conversationId && !m.isMuted && !m.isDeleted
    ensures forall m :: m in ms ==> m.role.None? && m.lastReadMessageId.None? && m.joinedTime == Some(now)
  {
    [ConversationMember(firstId, conversationId, apply.userId, None, false, false, None, Some(now)),
     ConversationMember(firstId + 1, conversationId, apply.friendId, None, false, false, None, Some(now))]
  }

  /** The card shown for a pending apply; an unresolved sender reads as "未知用户" without an avatar. */
  function ApplyVOOf(c: ContactApplyCache, sender: Option<UserInfoCache>): (vo: ContactApplyVO)
    ensures vo.id == c.contactApplyId && vo.userId == c.userId && vo.status == c.status && vo.createTime == c.createdTime
    ensures sender.Some? ==> vo.avatar == sender.value.avatar && vo.nickname == sender.value.nickname
    ensures sender.None? ==> vo.avatar == None && vo.nickname == Some(UNKNOWN_SENDER_NICKNAME)
  {
    ContactApplyVO(c.contactApplyId, c.userId,
      if sender.Some? then sender.value.avatar else None,
      if sender.Some? then sender.value.nickname else Some(UNKNOWN_SENDER_NICKNAME),
      c.status, c.createdTime)
  }

  class ContactApplyServiceImpl {
    const userService: UserServiceImpl
    const contactDao: ContactDao
    const contactApplyDao: ContactApplyDao
    const conversationDao: ConversationDao
    const conversationMemberDao: ConversationMemberDao
    const redisTemplateUtil: RedisTemplateUtil
    const locks: LockTable

    ghost predicate Valid()
      reads this, userService, userService.userDao, contactDao, contactApplyDao, conversationDao,
        conversationMemberDao, redisTemplateUtil, locks
    {
      && userService.userDao.Valid() && contactDao.Valid() && contactApplyDao.Valid()
      && conversationDao.Valid() && conversationMemberDao.Valid() && locks.Valid()
      && redisTemplateUtil.userDao == userService.userDao
      && redisTemplateUtil.contactDao == contactDao
      && redisTemplateUtil.contactApplyDao == contactApplyDao
    }

    constructor (userService: UserServiceImpl, contactDao: ContactDao, contactApplyDao: ContactApplyDao,
                 conversationDao: ConversationDao, conversationMemberDao: ConversationMemberDao,
                 redisTemplateUtil: RedisTemplateUtil, locks: LockTable)
      ensures this.userService == userService && this.contactDao == contactDao
      ensures this.contactApplyDao == contactApplyDao && this.conversationDao == conversationDao
      ensures this.conversationMemberDao == conversationMemberDao
      ensures this.redisTemplateUtil == redisTemplateUtil && this.locks == locks
    {
      this.userService := userService;
      this.contactDao := contactDao;
      this.contactApplyDao := contactApplyDao;
      this.conversationDao := conversationDao;
      this.conversationMemberDao := conversationMemberDao;
      this.redisTemplateUtil := redisTemplateUtil;
      this.locks := locks;
    }

    /**
     * The checks of `addContactApply`, in order: the name must resolve to
     * a user, that user must not be the caller, and the caller must not
     * already list that user; the id of the target otherwise. A query that
     * finds two rows where it expects one throws.
     */
    function ProposeCheck(userId: int, contactUserName: string): (r: Result<int, Failure>)
      reads userService, userService.userDao, contactDao, contactApplyDao
      ensures var target := userService.GetUserIdByUsername(contactUserName);
        && (target.Err? ==> r == Err(TooManyResults))
        && (target == Ok(None) ==> r == Err(ContactError(NOT_EXIST_CODE, USER_NOT_EXIST_MSG)))
        && (target == Ok(Some(userId)) ==> r == Err(ContactError(NOT_ALLOWED_CODE, NOT_ALLOWED_SEND_APPLY_MYSELF)))
        && (target.Ok? && target.value.Some? && target.value.value != userId ==>
              var contact := contactDao.SelectByUserIdAndFriendId(userId, target.value.value);
              var apply := contactApplyDao.SelectByUserIdAndFriendId(userId, target.value.value);
              && (contact.OneRow? ==> r == Err(ContactError(ALREADY_EXIST_CODE, CONTACT_ALREADY_EXIST_MSG)))
              && (contact.TooMany? ==> r == Err(TooManyResults))
              && (contact.NoRow? && apply.TooMany? ==> r == Err(TooManyResults))
              && (contact.NoRow? && !apply.TooMany? ==> r == Ok(target.value.value)))
    {
      match userService.GetUserIdByUsername(contactUserName)
      case Err(e) => Err(e)
      case Ok(None) => Err(ContactError(NOT_EXIST_CODE, USER_NOT_EXIST_MSG))
      case Ok(Some(contactId)) =>
        if contactId == userId then Err(ContactError(NOT_ALLOWED_CODE, NOT_ALLOWED_SEND_APPLY_MYSELF))
        else match contactDao.SelectByUserIdAndFriendId(userId, contactId)
          case OneRow(_) => Err(ContactError(ALREADY_EXIST_CODE, CONTACT_ALREADY_EXIST_MSG))
          case TooMany => Err(TooManyResults)
          case NoRow =>
            if contactApplyDao.SelectByUserIdAndFriendId(userId, contactId).TooMany? then Err(TooManyResults)
            else Ok(contactId)
    }

    /**
     * The checks of `handleApply`, in order: the apply exists, the caller
     * is its addressee, and it is still pending; the apply otherwise.
     */
    function HandleCheck(userId: int, applyId: int): (r: Result<ContactApply, Failure>)
      reads contactApplyDao
      ensures var found := contactApplyDao.SelectById(applyId);
        && (found.None? ==> r == Err(ContactError(NOT_EXIST_CODE, CONTACT_NOT_EXIST_MSG)))
        && (found.Some? && found.value.friendId != userId ==> r == Err(ContactError(NOT_ALLOWED_CODE, NOT_HANDLER_MSG)))
        && (found.Some? && found.value.friendId == userId && found.value.status != PENDING ==>
              r == Err(ContactError(NOT_ALLOWED_CODE, CONTACT_ALREADY_HANDLE_EXCEPTION_MSG)))
        && (found.Some? && found.value.friendId == userId && found.value.status == PENDING ==> r == Ok(found.value))
      ensures r.Ok? ==> r.value in contactApplyDao.rows && r.value.id == applyId && r.value.friendId == userId && r.value.status == PENDING
    {
      match contactApplyDao.SelectById(applyId)
      case None => Err(ContactError(NOT_EXIST_CODE, CONTACT_NOT_EXIST_MSG))
      case Some(a) =>
        if a.friendId != userId then Err(ContactError(NOT_ALLOWED_CODE, NOT_HANDLER_MSG))
        else if a.status != PENDING then Err(ContactError(NOT_ALLOWED_CODE, CONTACT_ALREADY_HANDLE_EXCEPTION_MSG))
        else Ok(a)
    }

    /**
     * The effect of the body of `addContactApply`, from the outcome `check`
     * of its checks and the apply table and cached inboxes before it: a
     * failed check changes nothing; a throwing write changes nothing;
     * otherwise the table is `ProposedRows` and the target's inbox is
     * dropped.
     */
    ghost predicate Proposed(userId: int, now: int, fault: Option<nat>, r: Result<bool, Failure>, check: Result<int, Failure>,
                             applies: seq<ContactApply>, nextId: int, inboxes: map<int, Entry<seq<ContactApplyCache>>>)
      reads contactApplyDao, redisTemplateUtil, redisTemplateUtil.redis
    {
      if check.Err? then
        r == Err(check.error) && contactApplyDao.rows == applies && redisTemplateUtil.redis.applies == inboxes
      else if fault == Some(0) && ProposalWrites(applies, userId, check.value) then
        r == Err(StoreFailure) && contactApplyDao.rows == applies && redisTemplateUtil.redis.applies == inboxes
      else
        && r == Ok(true)
        && contactApplyDao.rows == ProposedRows(applies, userId, check.value, now, nextId)
        && redisTemplateUtil.redis.applies == inboxes - {check.value}
    }

    /**
     * `addContactApply`, under its lock: when another thread holds the
     * lock the call fails at once; otherwise the body runs and the lock is
     * released. Either way the lock table is as it was.
     */
    method AddContactApply(userId: int, contactUserName: string, thread: int, now: int, fault: Option<nat>)
      returns (r: Result<bool, Failure>)
      requires Valid()
      modifies locks, contactApplyDao, redisTemplateUtil.redis`applies
      ensures Valid()
      ensures locks.holds == old(locks.holds)
      ensures LockBusy(old(locks.holds), ApplyLockKey(userId, contactUserName), thread) ==>
        && r == Err(FrequencyError(TOO_BUSY_CODE, APPLY_LOCK_MSG))
        && contactApplyDao.rows == old(contactApplyDao.rows) && redisTemplateUtil.redis.applies == old(redisTemplateUtil.redis.applies)
      ensures !LockBusy(old(locks.holds), ApplyLockKey(userId, contactUserName), thread) ==>
        Proposed(userId, now, fault, r, old(ProposeCheck(userId, contactUserName)),
                 old(contactApplyDao.rows), old(contactApplyDao.nextId), old(redisTemplateUtil.redis.applies))
    {
      var lockKey := ApplyLockKey(userId, contactUserName);
      ghost var holds := locks.holds;
      ghost var check, applies, nextId, inboxes := ProposeCheck(userId, contactUserName),
        contactApplyDao.rows, contactApplyDao.nextId, redisTemplateUtil.redis.applies;
      var isLocked := Acquire(lockKey, APPLY_LOCK, thread);
      if isLocked.Err? {
        assert contactApplyDao.rows == applies;
        return Err(isLocked.error);
      }
      assert !LockBusy(holds, lockKey, thread);
      assert ProposeCheck(userId, contactUserName) == check;
      ghost var entered := locks.holds;
      r := ProposeBody(userId, contactUserName, now, fault);
      assert Proposed(userId, now, fault, r, check, applies, nextId, inboxes) && locks.holds == entered;
      ReleaseTaken(lockKey, thread, holds);
    }

    /** The transactional body of `addContactApply`: the checks, the one write, then the cache eviction. */
    method ProposeBody(userId: int, contactUserName: string, now: int, fault: Option<nat>) returns (r: Result<bool, Failure>)
      requires Valid()
      modifies contactApplyDao, redisTemplateUtil.redis`applies
      ensures Valid()
      ensures Proposed(userId, now, fault, r, old(ProposeCheck(userId, contactUserName)),
                       old(contactApplyDao.rows), old(contactApplyDao.nextId), old(redisTemplateUtil.redis.applies))
    {
      var check := ProposeCheck(userId, contactUserName);
      if check.Err? {
        return Err(check.error);
      }
      var contactId := check.value;
      var written := ProposeWrite(userId, contactId, now, fault);
      if !written {
        return Err(StoreFailure);
      }
      redisTemplateUtil.DeleteContactApplyCache(contactId);
      r := Ok(true);
    }

    /** The one write of `addContactApply`: insert or revive the apply; `written` unless that write throws. */
    method ProposeWrite(userId: int, contactId: int, now: int, fault: Option<nat>) returns (written: bool)
      requires contactApplyDao.Valid()
      modifies contactApplyDao
      ensures contactApplyDao.Valid()
      ensures written <==> !(fault == Some(0) && ProposalWrites(old(contactApplyDao.rows), userId, contactId))
      ensures written ==> contactApplyDao.rows == ProposedRows(old(contactApplyDao.rows), userId, contactId, now, old(contactApplyDao.nextId))
      ensures !written ==> contactApplyDao.rows == old(contactApplyDao.rows)
    {
      ghost var rows, newId := contactApplyDao.rows, contactApplyDao.nextId;
      var existing := contactApplyDao.SelectByUserIdAndFriendId(userId, contactId);
      assert existing == SelectOne(rows, (a: ContactApply) => a.userId == userId && a.friendId == contactId);
      if existing.NoRow? {
        if fault == Some(0) {
          assert ProposalWrites(rows, userId, contactId);
          return false;
        }
        var _ := contactApplyDao.Insert(ContactApply(0, userId, contactId, PENDING, INSERTED_IS_READ, Some(now)));
        assert contactApplyDao.rows == ProposedRows(rows, userId, contactId, now, newId);
      } else if existing.OneRow? && existing.row.status != PENDING {
        if fault == Some(0) {
          assert ProposalWrites(rows, userId, contactId);
          return false;
        }
        contactApplyDao.UpdateById(existing.row.(status := PENDING, createdTime := Some(now)));
        assert contactApplyDao.rows == ProposedRows(rows, userId, contactId, now, newId);
      } else {
        assert !ProposalWrites(rows, userId, contactId) && ProposedRows(rows, userId, contactId, now, newId) == rows;
      }
      written := true;
    }

    /** The tables after a committed acceptance of `apply`. */
    ghost predicate AcceptCommitted(apply: ContactApply, now: int, applies: seq<ContactApply>,
                                    contacts: seq<Contact>, contactNextId: int,
                                    conversations: seq<Conversation>, conversationNextId: int,
                                    members: seq<ConversationMember>, memberNextId: int)
      reads contactApplyDao, contactDao, conversationDao, conversationMemberDao
    {
      && contactApplyDao.rows == HandledRows(applies, apply, ACCEPTED)
      && conversationDao.rows == conversations + [PrivateConversation(conversationNextId, now)]
      && contactDao.rows == contacts + MirroredContacts(apply, conversationNextId, contactNextId, now)
      && conversationMemberDao.rows == members + MemberPair(apply, conversationNextId, memberNextId, now)
    }

    /** The four tables hold the given rows. */
    ghost predicate TablesAre(applies: seq<ContactApply>, contacts: seq<Contact>, conversations: seq<Conversation>, members: seq<ConversationMember>)
      reads contactApplyDao, contactDao, conversationDao, conversationMemberDao
    {
      contactApplyDao.rows == applies && contactDao.rows == contacts && conversationDao.rows == conversations && conversationMemberDao.rows == members
    }

    /**
     * The effect of the body of `handleApply`, from the outcome `check` of
     * its checks, the tables and the cached contact lists and inboxes
     * before it. A failed check changes nothing. A refusal writes REJECTED
     * and drops the handler's inbox, unless the write throws. An
     * acceptance drops both users' contact lists and the handler's inbox
     * (Redis is outside the transaction), then either commits all six
     * writes or, when one throws, leaves the tables as they were.
     */
    ghost predicate Handled(userId: int, agree: bool, now: int, fault: Option<nat>, r: Result<bool, Failure>, check: Result<ContactApply, Failure>,
                            applies: seq<ContactApply>, contacts: seq<Contact>, contactNextId: int,
                            conversations: seq<Conversation>, conversationNextId: int,
                            members: seq<ConversationMember>, memberNextId: int,
                            contactLists: map<int, Entry<seq<ContactsCache>>>, inboxes: map<int, Entry<seq<ContactApplyCache>>>)
      reads contactApplyDao, contactDao, conversationDao, conversationMemberDao, redisTemplateUtil, redisTemplateUtil.redis
    {
      if check.Err? then
        && r == Err(check.error) && TablesAre(applies, contacts, conversations, members)
        && redisTemplateUtil.redis.contacts == contactLists && redisTemplateUtil.redis.applies == inboxes
      else if !agree then
        && redisTemplateUtil.redis.contacts == contactLists
        && (if fault == Some(0) then
              r == Err(StoreFailure) && TablesAre(applies, contacts, conversations, members) && redisTemplateUtil.redis.applies == inboxes
            else
              && r == Ok(true) && TablesAre(HandledRows(applies, check.value, REJECTED), contacts, conversations, members)
              && redisTemplateUtil.redis.applies == inboxes - {userId})
      else
        && redisTemplateUtil.redis.contacts == contactLists - {check.value.userId, check.value.friendId}
        && redisTemplateUtil.redis.applies == inboxes - {userId}
        && (if fault.Some? && fault.value < 6 then
              r == Err(StoreFailure) && TablesAre(applies, contacts, conversations, members)
            else
              r == Ok(true) && AcceptCommitted(check.value, now, applies, contacts, contactNextId,
                                               conversations, conversationNextId, members, memberNextId))
    }

    /**
     * `handleApply`, under its lock on the apply's id: when another thread
     * holds it the call fails at once and changes nothing; otherwise the
     * body runs and the lock is released. Either way the lock table is as
     * it was.
     */
    method HandleApply(userId: int, dto: ContactApplyHandleDTO, thread: int, now: int, fault: Option<nat>)
      returns (r: Result<bool, Failure>)
      requires Valid()
      modifies locks, contactApplyDao, contactDao, conversationDao, conversationMemberDao
      modifies redisTemplateUtil.redis`applies, redisTemplateUtil.redis`contacts
      ensures Valid()
      ensures locks.holds == old(locks.holds)
      ensures LockBusy(old(locks.holds), HandleLockKey(dto.contactId), thread) ==>
        && r == Err(FrequencyError(TOO_BUSY_CODE, HANDLE_LOCK_MSG))
        && TablesAre(old(contactApplyDao.rows), old(contactDao.rows), old(conversationDao.rows), old(conversationMemberDao.rows))
        && redisTemplateUtil.redis.contacts == old(redisTemplateUtil.redis.contacts)
        && redisTemplateUtil.redis.applies == old(redisTemplateUtil.redis.applies)
      ensures !LockBusy(old(locks.holds), HandleLockKey(dto.contactId), thread) ==>
        Handled(userId, dto.agree, now, fault, r, old(HandleCheck(userId, dto.contactId)),
                old(contactApplyDao.rows), old(contactDao.rows), old(contactDao.nextId),
                old(conversationDao.rows), old(conversationDao.nextId),
                old(conversationMemberDao.rows), old(conversationMemberDao.nextId),
                old(redisTemplateUtil.redis.contacts), old(redisTemplateUtil.redis.applies))
    {
      var lockKey := HandleLockKey(dto.contactId);
      ghost var holds := locks.holds;
      ghost var check := HandleCheck(userId, dto.contactId);
      ghost var applies, contacts, conversations, members := contactApplyDao.rows, contactDao.rows, conversationDao.rows, conversationMemberDao.rows;
      ghost var contactNextId, conversationNextId, memberNextId := contactDao.nextId, conversationDao.nextId, conversationMemberDao.nextId;
      ghost var contactLists, inboxes := redisTemplateUtil.redis.contacts, redisTemplateUtil.redis.applies;
      var isLocked := Acquire(lockKey, HANDLE_LOCK, thread);
      if isLocked.Err? {
        assert TablesAre(applies, contacts, conversations, members);
        return Err(isLocked.error);
      }
      assert !LockBusy(holds, lockKey, thread);
      assert HandleCheck(userId, dto.contactId) == check && TablesAre(applies, contacts, conversations, members);
      assert contactDao.nextId == contactNextId && conversationDao.nextId == conversationNextId && conversationMemberDao.nextId == memberNextId;
      assert redisTemplateUtil.redis.contacts == contactLists && redisTemplateUtil.redis.applies == inboxes;
      ghost var entered := locks.holds;
      r := HandleBody(userId, dto, now, fault);
      assert Handled(userId, dto.agree, now, fault, r, check, applies, contacts, contactNextId, conversations, conversationNextId,
                     members, memberNextId, contactLists, inboxes) && locks.holds == entered;
      ReleaseTaken(lockKey, thread, holds);
    }

    /**
     * The release at the end of a locked call that took the lock when it
     * was not busy: the lock table is back to what it was before the call.
     */
    method ReleaseTaken(key: string, thread: int, ghost before: map<string, Hold>)
      requires Valid() && (forall k :: k in before ==> before[k].count >= 1)
      requires !LockBusy(before, key, thread)
      requires locks.holds == Taken(before, key, thread)
      modifies locks
      ensures Valid() && locks.holds == before
    {
      Exit(locks, key, thread, true);
      EnterExitRestores(before, key, thread);
    }

    /**
     * The part of the lock aspect before `proceed`, for a lock that waits
     * for no release in time: it is taken unless another thread holds it.
     */
    method Acquire(key: string, config: FrequencyLock, thread: int) returns (isLocked: Result<bool, Failure>)
      requires Valid()
      modifies locks
      ensures Valid()
      ensures isLocked.Ok? <==> !LockBusy(old(locks.holds), key, thread)
      ensures isLocked.Ok? ==> isLocked.value && locks.holds == Taken(old(locks.holds), key, thread)
      ensures isLocked.Err? ==> isLocked.error == FrequencyError(TOO_BUSY_CODE, config.msg) && locks.holds == old(locks.holds)
    {
      isLocked := Enter(locks, key, config, thread, false);
    }

    /** The transactional body of `handleApply`. */
    method HandleBody(userId: int, dto: ContactApplyHandleDTO, now: int, fault: Option<nat>) returns (r: Result<bool, Failure>)
      requires Valid()
      modifies contactApplyDao, contactDao, conversationDao, conversationMemberDao
      modifies redisTemplateUtil.redis`applies, redisTemplateUtil.redis`contacts
      ensures Valid()
      ensures Handled(userId, dto.agree, now, fault, r, old(HandleCheck(userId, dto.contactId)),
                      old(contactApplyDao.rows), old(contactDao.rows), old(contactDao.nextId),
                      old(conversationDao.rows), old(conversationDao.nextId),
                      old(conversationMemberDao.rows), old(conversationMemberDao.nextId),
                      old(redisTemplateUtil.redis.contacts), old(redisTemplateUtil.redis.applies))
    {
      var check := HandleCheck(userId, dto.contactId);
      if check.Err? {
        return Err(check.error);
      }
      if !dto.agree {
        r := Reject(check.value, userId, fault);
      } else {
        r := Accept(check.value, userId, now, fault);
      }
    }

    /** A refusal: the apply is marked REJECTED and the handler's inbox dropped, unless the write throws. */
    method Reject(apply: ContactApply, userId: int, fault: Option<nat>) returns (r: Result<bool, Failure>)
      requires Valid()
      modifies contactApplyDao, redisTemplateUtil.redis`applies
      ensures Valid()
      ensures fault == Some(0) ==>
        r == Err(StoreFailure) && contactApplyDao.rows == old(contactApplyDao.rows)
        && redisTemplateUtil.redis.applies == old(redisTemplateUtil.redis.applies)
      ensures fault != Some(0) ==>
        && r == Ok(true) && contactApplyDao.rows == HandledRows(old(contactApplyDao.rows), apply, REJECTED)
        && redisTemplateUtil.redis.applies == old(redisTemplateUtil.redis.applies) - {userId}
    {
      if fault == Some(0) {
        return Err(StoreFailure);
      }
      contactApplyDao.UpdateById(apply.(status := REJECTED));
      redisTemplateUtil.DeleteContactApplyCache(userId);
      r := Ok(true);
    }

    /**
     * An acceptance: both parties' contact lists and the handler's inbox
     * are dropped first, then the six writes run in one transaction.
     */
    method Accept(apply: ContactApply, userId: int, now: int, fault: Option<nat>) returns (r: Result<bool, Failure>)
      requires Valid()
      modifies contactApplyDao, contactDao, conversationDao, conversationMemberDao
      modifies redisTemplateUtil.redis`applies, redisTemplateUtil.redis`contacts
      ensures Valid()
      ensures redisTemplateUtil.redis.contacts == old(redisTemplateUtil.redis.contacts) - {apply.userId, apply.friendId}
      ensures redisTemplateUtil.redis.applies == old(redisTemplateUtil.redis.applies) - {userId}
      ensures fault.Some? && fault.value < 6 ==>
        r == Err(StoreFailure)
        && TablesAre(old(contactApplyDao.rows), old(contactDao.rows), old(conversationDao.rows), old(conversationMemberDao.rows))
      ensures !(fault.Some? && fault.value < 6) ==>
        r == Ok(true) && AcceptCommitted(apply, now, old(contactApplyDao.rows), old(contactDao.rows), old(contactDao.nextId),
                                         old(conversationDao.rows), old(conversationDao.nextId),
                                         old(conversationMemberDao.rows), old(conversationMemberDao.nextId))
    {
      redisTemplateUtil.DeleteContactCaches(Some([apply.userId, apply.friendId]));
      assert (set uid | uid in [apply.userId, apply.friendId]) == {apply.userId, apply.friendId};
      redisTemplateUtil.DeleteContactApplyCache(userId);
      r := AcceptTransaction(apply, now, fault);
    }

    /** The four tables an acceptance writes are consistent. */
    ghost predicate TablesValid()
      reads contactApplyDao, contactDao, conversationDao, conversationMemberDao
    {
      contactApplyDao.Valid() && contactDao.Valid() && conversationDao.Valid() && conversationMemberDao.Valid()
    }

    /**
     * The six writes of an acceptance. When write number `fault` throws,
     * the writes before it are rolled back; the auto-increment counters
     * keep the ids they handed out.
     */
    method AcceptTransaction(apply: ContactApply, now: int, fault: Option<nat>) returns (r: Result<bool, Failure>)
      requires TablesValid()
      modifies contactApplyDao`rows, contactDao, conversationDao, conversationMemberDao
      ensures TablesValid()
      ensures fault.Some? && fault.value < 6 <==> r.Err?
      ensures r.Err? ==>
        && r.error == StoreFailure
        && contactApplyDao.rows == old(contactApplyDao.rows) && contactDao.rows == old(contactDao.rows)
        && conversationDao.rows == old(conversationDao.rows) && conversationMemberDao.rows == old(conversationMemberDao.rows)
      ensures r.Ok? ==> r.value && AcceptCommitted(apply, now, old(contactApplyDao.rows), old(contactDao.rows), old(contactDao.nextId),
                                   old(conversationDao.rows), old(conversationDao.nextId),
                                   old(conversationMemberDao.rows), old(conversationMemberDao.nextId))
    {
      var savedApplies, savedContacts := contactApplyDao.rows, contactDao.rows;
      var savedConversations, savedMembers := conversationDao.rows, conversationMemberDao.rows;
      var completed := AcceptWrites(apply, now, fault);
      if !completed {
        Rollback(savedApplies, savedContacts, savedConversations, savedMembers);
        return Err(StoreFailure);
      }
      r := Ok(true);
    }

    /** The writes of an acceptance up to the one that throws; `completed` when none does. */
    method AcceptWrites(apply: ContactApply, now: int, fault: Option<nat>) returns (completed: bool)
      requires TablesValid()
      modifies contactApplyDao`rows, contactDao, conversationDao, conversationMemberDao
      ensures TablesValid()
      ensures contactDao.nextId >= old(contactDao.nextId) && conversationDao.nextId >= old(conversationDao.nextId)
      ensures conversationMemberDao.nextId >= old(conversationMemberDao.nextId)
      ensures completed <==> !(fault.Some? && fault.value < 6)
      ensures completed ==> AcceptCommitted(apply, now, old(contactApplyDao.rows), old(contactDao.rows), old(contactDao.nextId),
                                   old(conversationDao.rows), old(conversationDao.nextId),
                                   old(conversationMemberDao.rows), old(conversationMemberDao.nextId))
    {
      if fault == Some(0) {
        return false;
      }
      contactApplyDao.UpdateById(apply.(status := ACCEPTED));
      if fault == Some(1) {
        return false;
      }
      var conversationId := conversationDao.Insert(PrivateConversation(0, now));
      if fault == Some(2) {
        return false;
      }
      completed := FriendshipWrites(apply, conversationId, now, fault);
    }

    /** Writes two to five of an acceptance: the two contact rows, then the two member rows. */
    method FriendshipWrites(apply: ContactApply, conversationId: int, now: int, fault: Option<nat>) returns (completed: bool)
      requires contactDao.Valid() && conversationMemberDao.Valid()
      requires fault != Some(0) && fault != Some(1) && fault != Some(2)
      modifies contactDao, conversationMemberDao
      ensures contactDao.Valid() && conversationMemberDao.Valid()
      ensures contactDao.nextId >= old(contactDao.nextId) && conversationMemberDao.nextId >= old(conversationMemberDao.nextId)
      ensures completed <==> !(fault.Some? && fault.value < 6)
      ensures completed ==>
        && contactDao.rows == old(contactDao.rows) + MirroredContacts(apply, conversationId, old(contactDao.nextId), now)
        && conversationMemberDao.rows == old(conversationMemberDao.rows) + MemberPair(apply, conversationId, old(conversationMemberDao.nextId), now)
    {
      var contactPair := MirroredContacts(apply, conversationId, 0, now);
      var firstContact := contactDao.Insert(contactPair[0]);
      if fault == Some(3) {
        return false;
      }
      var _ := contactDao.Insert(contactPair[1]);
      if fault == Some(4) {
        return false;
      }
      var members := MemberPair(apply, conversationId, 0, now);
      var firstMember := conversationMemberDao.Insert(members[0]);
      if fault == Some(5) {
        return false;
      }
      var _ := conversationMemberDao.Insert(members[1]);
      assert contactDao.rows == old(contactDao.rows) + MirroredContacts(apply, conversationId, firstContact, now);
      assert conversationMemberDao.rows == old(conversationMemberDao.rows) + MemberPair(apply, conversationId, firstMember, now);
      completed := true;
    }

    /** The transaction's rollback: every table back to the rows saved at its start. */
    method Rollback(applies: seq<ContactApply>, contacts: seq<Contact>, conversations: seq<Conversation>, members: seq<ConversationMember>)
      requires ApplyRowsValid(applies, contactApplyDao.nextId) && ContactRowsValid(contacts, contactDao.nextId)
      requires ConversationRowsValid(conversations, conversationDao.nextId) && MemberRowsValid(members, conversationMemberDao.nextId)
      modifies contactApplyDao`rows, contactDao`rows, conversationDao`rows, conversationMemberDao`rows
      ensures TablesValid()
      ensures contactApplyDao.rows == applies && contactDao.rows == contacts
      ensures conversationDao.rows == conversations && conversationMemberDao.rows == members
    {
      contactApplyDao.Restore(applies);
      contactDao.Restore(contacts);
      conversationDao.Restore(conversations);
      conversationMemberDao.Restore(members);
    }

    /**
     * `applyList`: the handler's cached inbox (read through on a miss),
     * one card per apply in the same order, each with its sender's cached
     * or stored profile.
     */
    method ApplyList(userId: int, now: int) returns (r: seq<ContactApplyVO>)
      requires Valid()
      modifies redisTemplateUtil`storeReads, redisTemplateUtil.redis`applies, redisTemplateUtil.redis`userInfo
      ensures Valid()
      ensures var inbox := if Lookup(old(redisTemplateUtil.redis.applies), userId, now).Some?
          then old(redisTemplateUtil.redis.applies)[userId].value
          else ApplyCacheList(contactApplyDao.SelectApplyList(userId, PENDING));
        && |r| == |inbox|
        && forall k :: 0 <= k < |r| ==> r[k] == ApplyVOOf(inbox[k], redisTemplateUtil.BatchEntry(inbox[k].userId, old(redisTemplateUtil.redis.userInfo), now))
    {
      var inbox := redisTemplateUtil.GetContactApplyCache(userId, now);
      var senderIds := seq(|inbox|, k requires 0 <= k < |inbox| => inbox[k].userId);
      var userMap := redisTemplateUtil.GetUserInfoCacheMapByIds(Some(senderIds), now);
      r := seq(|inbox|, k requires 0 <= k < |inbox| =>
        ApplyVOOf(inbox[k], if inbox[k].userId in userMap then Some(userMap[inbox[k].userId]) else None));
      forall k | 0 <= k < |r|
        ensures r[k] == ApplyVOOf(inbox[k], redisTemplateUtil.BatchEntry(inbox[k].userId, old(redisTemplateUtil.redis.userInfo), now))
      {
        assert inbox[k].userId == senderIds[k];
      }
    }
  }

  /** A proposal to a pair with at most one apply leaves at most one apply per pair. */
  lemma {:induction false} ProposeKeepsPairsUnique(rows: seq<ContactApply>, nextId: int, userId: int, contactId: int, now: int)
    requires ApplyRowsValid(rows, nextId) && PairsUnique(rows)
    ensures PairsUnique(ProposedRows(rows, userId, contactId, now, nextId))
  {
    var p := (a: ContactApply) => a.userId == userId && a.friendId == contactId;
    match SelectOne(rows, p)
    case NoRow =>
      var after := rows + [ContactApply(nextId, userId, contactId, PENDING, INSERTED_IS_READ, Some(now))];
      forall i, j | 0 <= i < j < |after|
        ensures !(after[i].userId == after[j].userId && after[i].friendId == after[j].friendId)
      {
        if j == |rows| {
          assert after[i] == rows[i] && !p(rows[i]);
        }
      }
    case OneRow(e) =>
      if e.status != PENDING {
        PatchKeepsPairs(rows, nextId, e, e.(status := PENDING, createdTime := Some(Some(now).value)));
      }
    case TooMany =>
  }

  /** Patching an existing row with an entity for the same pair leaves every row's pair as it was. */
  lemma {:induction false} PatchKeepsPairs(rows: seq<ContactApply>, nextId: int, e: ContactApply, patch: ContactApply)
    requires ApplyRowsValid(rows, nextId) && PairsUnique(rows) && e in rows
    requires patch.id == e.id && patch.userId == e.userId && patch.friendId == e.friendId
    ensures var after := UpdateWhere(rows, (a: ContactApply) => a.id == patch.id, (a: ContactApply) => PatchApply(a, patch));
      && |after| == |rows|
      && (forall i :: 0 <= i < |rows| ==> after[i].userId == rows[i].userId && after[i].friendId == rows[i].friendId)
      && PairsUnique(after)
  {
    var after := UpdateWhere(rows, (a: ContactApply) => a.id == patch.id, (a: ContactApply) => PatchApply(a, patch));
    forall i | 0 <= i < |rows|
      ensures after[i].userId == rows[i].userId && after[i].friendId == rows[i].friendId
    {
      if rows[i].id == patch.id {
        var k :| 0 <= k < |rows| && rows[k] == e;
        assert k == i;
      }
    }
  }

  /** A pair that has a row in a table with unique pairs is found by `selectByUserIdAndFriendId`. */
  lemma {:induction false} UniquePairFound(rows: seq<ContactApply>, x: ContactApply)
    requires PairsUnique(rows) && x in rows
    ensures SelectOne(rows, (a: ContactApply) => a.userId == x.userId && a.friendId == x.friendId) == OneRow(x)
  {
    var p := (a: ContactApply) => a.userId == x.userId && a.friendId == x.friendId;
    SelectOneUnique(rows, p);
    var found := SelectOne(rows, p);
    assert !found.NoRow?;
    var y := found.row;
    var i :| 0 <= i < |rows| && rows[i] == x;
    var j :| 0 <= j < |rows| && rows[j] == y;
    assert p(rows[i]) && p(rows[j]);
    assert i == j;
  }

  /**
   * After a proposal from A to B, the pair has exactly one apply and it is
   * PENDING; a handled apply is revived in place with the proposal's time.
   */
  lemma {:induction false} ProposeLeavesOnePending(rows: seq<ContactApply>, nextId: int, userId: int, contactId: int, now: int)
    requires ApplyRowsValid(rows, nextId) && PairsUnique(rows)
    ensures var after := ProposedRows(rows, userId, contactId, now, nextId);
      var found := SelectOne(after, (a: ContactApply) => a.userId == userId && a.friendId == contactId);
      && found.OneRow? && found.row.status == PENDING
      && (forall e :: SelectOne(rows, (a: ContactApply) => a.userId == userId && a.friendId == contactId) == OneRow(e) ==>
            found.row.id == e.id && |after| == |rows| &&
            (e.status != PENDING ==> found.row.createdTime == Some(now)) &&
            (e.status == PENDING ==> found.row == e))
  {
    var p := (a: ContactApply) => a.userId == userId && a.friendId == contactId;
    var after := ProposedRows(rows, userId, contactId, now, nextId);
    ProposeKeepsPairsUnique(rows, nextId, userId, contactId, now);
    SelectOneUnique(rows, p);
    match SelectOne(rows, p)
    case NoRow =>
      var inserted := ContactApply(nextId, userId, contactId, PENDING, INSERTED_IS_READ, Some(now));
      assert after[|rows|] == inserted;
      UniquePairFound(after, inserted);
    case OneRow(e) =>
      if e.status != PENDING {
        var patch := e.(status := PENDING, createdTime := Some(now));
        var k :| 0 <= k < |rows| && rows[k] == e;
        assert after[k] == PatchApply(e, patch);
        UniquePairFound(after, after[k]);
      } else {
        UniquePairFound(after, e);
      }
  }

  /** Handling writes the new status into the apply's own row and keeps every pair. */
  lemma {:induction false} HandleKeepsPairs(rows: seq<ContactApply>, nextId: int, apply: ContactApply, status: ContactApplyStatus)
    requires ApplyRowsValid(rows, nextId) && PairsUnique(rows) && apply in rows
    ensures PairsUnique(HandledRows(rows, apply, status))
    ensures SelectOne(HandledRows(rows, apply, status),
                      (a: ContactApply) => a.userId == apply.userId && a.friendId == apply.friendId) == OneRow(apply.(status := status))
  {
    PatchKeepsPairs(rows, nextId, apply, apply.(status := status));
    var after := HandledRows(rows, apply, status);
    var k :| 0 <= k < |rows| && rows[k] == apply;
    assert after[k] == apply.(status := status);
    UniquePairFound(after, after[k]);
  }

  /**
   * Accepting an apply between two users who list each other in neither
   * direction makes each list the other exactly once, over the new
   * conversation.
   */
  lemma {:induction false} AcceptMakesMirroredFriends(rows: seq<Contact>, apply: ContactApply, conversationId: int, firstId: int, now: int)
    requires apply.userId != apply.friendId
    requires forall c :: c in rows ==> !(c.userId == apply.userId && c.friendId == apply.friendId)
    requires forall c :: c in rows ==> !(c.userId == apply.friendId && c.friendId == apply.userId)
    ensures var after := rows + MirroredContacts(apply, conversationId, firstId, now);
      var ab := SelectOne(after, (c: Contact) => c.userId == apply.userId && c.friendId == apply.friendId);
      var ba := SelectOne(after, (c: Contact) => c.userId == apply.friendId && c.friendId == apply.userId);
      && ab.OneRow? && ba.OneRow?
      && ab.row.conversationId == ba.row.conversationId == Some(conversationId)
      && ab.row.id != ba.row.id
  {
    var pair := MirroredContacts(apply, conversationId, firstId, now);
    var pab := (c: Contact) => c.userId == apply.userId && c.friendId == apply.friendId;
    var pba := (c: Contact) => c.userId == apply.friendId && c.friendId == apply.userId;
    FilterAppend(rows, pair, pab);
    FilterAppend(rows, pair, pba);
    assert Count(rows, pab) == 0;
    assert Count(rows, pba) == 0;
    assert pair == [pair[0]] + [pair[1]];
    FilterAppend([pair[0]], [pair[1]], pab);
    FilterAppend([pair[0]], [pair[1]], pba);
    assert Filter([pair[1]], pab) == [];
    assert Filter([pair[0]], pba) == [];
  }

  /**
   * The friendship rows are inserted whatever exists: when B still lists
   * A (B's mirror row survives A's deletion of B), accepting A's new
   * apply gives B two rows for A, and every later
   * `selectByUserIdAndFriendId(B, A)` throws.
   */
  lemma {:induction false} AcceptDuplicatesSurvivingMirror(rows: seq<Contact>, apply: ContactApply, conversationId: int, firstId: int, now: int)
    requires apply.userId != apply.friendId
    requires SelectOne(rows, (c: Contact) => c.userId == apply.friendId && c.friendId == apply.userId).OneRow?
    ensures SelectOne(rows + MirroredContacts(apply, conversationId, firstId, now),
                      (c: Contact) => c.userId == apply.friendId && c.friendId == apply.userId).TooMany?
  {
    var pair := MirroredContacts(apply, conversationId, firstId, now);
    var pba := (c: Contact) => c.userId == apply.friendId && c.friendId == apply.userId;
    FilterAppend(rows, pair, pba);
    assert pair == [pair[0]] + [pair[1]];
    FilterAppend([pair[0]], [pair[1]], pba);
    assert Filter([pair[0]], pba) == [];
    assert Filter([pair[1]], pba) == [pair[1]];
  }

  /**
   * When no member row names the new conversation yet, the acceptance
   * leaves it with exactly the two users as members, neither muted nor
   * deleted.
   */
  lemma {:induction false} AcceptedConversationMembers(rows: seq<ConversationMember>, apply: ContactApply, conversationId: int, firstId: int, now: int)
    requires forall m :: m in rows ==> m.conversationId != conversationId
    ensures var members := Filter(rows + MemberPair(apply, conversationId, firstId, now),
                                  (m: ConversationMember) => m.conversationId == conversationId);
      && |members| == 2
      && members[0].userId == apply.userId && members[1].userId == apply.friendId
      && (forall k :: 0 <= k < 2 ==> !members[k].isMuted && !members[k].isDeleted && members[k].joinedTime == Some(now))
  {
    var pair := MemberPair(apply, conversationId, firstId, now);
    var p := (m: ConversationMember) => m.conversationId == conversationId;
    FilterAppend(rows, pair, p);
    assert Count(rows, p) == 0;
    assert pair == [pair[0]] + [pair[1]];
    FilterAppend([pair[0]], [pair[1]], p);
  }

  /** A sender the batch lookup answers with the cached "no such user" marker shows no nickname, not "未知用户". */
  lemma {:induction false} PlaceholderSenderHasNoName(c: ContactApplyCache)
    ensures ApplyVOOf(c, Some(NULL_PLACEHOLDER)).nickname.None?
    ensures ApplyVOOf(c, None).nickname == Some(UNKNOWN_SENDER_NICKNAME)
  {
  }
}
