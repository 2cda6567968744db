/**
 * The data-access classes over the MySQL tables. Each table is its rows in
 * primary-key order and the next AUTO_INCREMENT value; ids start at 1. A
 * query is a function of the rows, a statement a method that changes them.
 *
 * `updateById(entity)` and `update(entity, wrapper)` write only the
 * entity's non-null fields; primitive fields (`byte`, `boolean`) are never
 * null and are always written.
 */
module Dao {
  import opened Wrappers
  import opened Enums
  import opened Entities
  import opened Query

  /** The value an UPDATE leaves in a nullable column: the entity's when it is non-null. */
  function SetIfPresent<T>(v: Option<T>, current: Option<T>): (r: Option<T>)
    ensures v.Some? ==> r == v
    ensures v.None? ==> r == current
  {
    if v.Some? then v else current
  }

  // ---------------------------------------------------------------- contact_apply

  predicate ApplyRowsValid(rows: seq<ContactApply>, nextId: int) {
    && 1 <= nextId
    && (forall i :: 0 <= i < |rows| ==> 1 <= rows[i].id < nextId)
    && (forall i, j :: 0 <= i < j < |rows| ==> rows[i].id < rows[j].id)
  }

  /** `ContactApplyDao.updateById`: every field of the entity but a null `createdTime`. */
  function PatchApply(row: ContactApply, e: ContactApply): (r: ContactApply)
    ensures r.id == row.id && r.isRead == row.isRead
    ensures r.userId == e.userId && r.friendId == e.friendId && r.status == e.status
    ensures r.createdTime == SetIfPresent(e.createdTime, row.createdTime)
  {
    row.(userId := e.userId, friendId := e.friendId, status := e.status,
         createdTime := SetIfPresent(e.createdTime, row.createdTime))
  }

  /** The WHERE clause of `selectApplyList`. */
  predicate AddressedWithStatus(a: ContactApply, userId: int, status: ContactApplyStatus) {
    a.friendId == userId && a.status == status
  }

  predicate UnreadFor(a: ContactApply, userId: int) {
    a.friendId == userId && !a.isRead
  }

  function ApplyCreated(a: ContactApply): Option<int> { a.createdTime }

  class ContactApplyDao {
    var rows: seq<ContactApply>
    var nextId: int

    ghost predicate Valid()
      reads this
    {
      ApplyRowsValid(rows, nextId)
    }

    constructor ()
      ensures Valid() && rows == [] && nextId == 1
    {
      rows := [];
      nextId := 1;
    }

    function SelectById(id: int): (r: Option<ContactApply>)
      reads this
      ensures r.Some? ==> r.value in rows && r.value.id == id
      ensures r.None? <==> forall a :: a in rows ==> a.id != id
    {
      FindFirst(rows, (a: ContactApply) => a.id == id)
    }

    /** `selectApplyList`: the applies sent to `userId` with that status, newest first. */
    function SelectApplyList(userId: int, status: ContactApplyStatus): (r: seq<ContactApply>)
      reads this
      ensures SortedDesc(r, ApplyCreated)
      ensures multiset(r) == multiset(Filter(rows, (a: ContactApply) => AddressedWithStatus(a, userId, status)))
      ensures forall a :: a in r <==> a in rows && a.friendId == userId && a.status == status
    {
      var matching := Filter(rows, (a: ContactApply) => AddressedWithStatus(a, userId, status));
      SortDescCorrect(matching, ApplyCreated);
      var sorted := SortDesc(matching, ApplyCreated);
      assert forall a :: a in sorted <==> a in multiset(matching);
      sorted
    }

    /** `selectByUserIdAndFriendId`: directional, whatever the status. */
    function SelectByUserIdAndFriendId(userId: int, contactId: int): (r: One<ContactApply>)
      reads this
      ensures r.OneRow? ==> r.row in rows && r.row.userId == userId && r.row.friendId == contactId
      ensures r.NoRow? <==> forall a :: a in rows ==> !(a.userId == userId && a.friendId == contactId)
      ensures r.TooMany? <==> |Filter(rows, (a: ContactApply) => a.userId == userId && a.friendId == contactId)| >= 2
    {
      SelectOne(rows, (a: ContactApply) => a.userId == userId && a.friendId == contactId)
    }

    /** `getUnreadContactApplyCount`. */
    function GetUnreadContactApplyCount(userId: int): (n: nat)
      reads this
      ensures n == |Filter(rows, (a: ContactApply) => UnreadFor(a, userId))|
      ensures n == 0 <==> forall a :: a in rows ==> !UnreadFor(a, userId)
    {
      Count(rows, (a: ContactApply) => UnreadFor(a, userId))
    }

    /** `insert`: the row gets the next auto-increment id. */
    method Insert(row: ContactApply) returns (id: int)
      requires Valid()
      modifies this
      ensures Valid()
      ensures id == old(nextId) && nextId == old(nextId) + 1
      ensures rows == old(rows) + [row.(id := id)]
    {
      id := nextId;
      rows := rows + [row.(id := id)];
      nextId := nextId + 1;
    }

    method UpdateById(e: ContactApply)
      requires Valid()
      modifies this`rows
      ensures Valid()
      ensures rows == UpdateWhere(old(rows), (a: ContactApply) => a.id == e.id, (a: ContactApply) => PatchApply(a, e))
    {
      rows := UpdateWhere(rows, (a: ContactApply) => a.id == e.id, (a: ContactApply) => PatchApply(a, e));
    }

    method DeleteById(id: int)
      requires Valid()
      modifies this`rows
      ensures Valid()
      ensures rows == Filter(old(rows), (a: ContactApply) => a.id != id)
    {
      rows := Filter(rows, (a: ContactApply) => a.id != id);
      FilterKeepsApplyRowsValid(old(rows), nextId, id);
    }

    /** `markAll`: sets `isRead` on the unread applies sent to `userId`. */
    method MarkAll(userId: int)
      requires Valid()
      modifies this`rows
      ensures Valid()
      ensures rows == UpdateWhere(old(rows), (a: ContactApply) => UnreadFor(a, userId), (a: ContactApply) => a.(isRead := true))
    {
      rows := UpdateWhere(rows, (a: ContactApply) => UnreadFor(a, userId), (a: ContactApply) => a.(isRead := true));
    }

    /** The transaction's rollback: the rows as they were; the auto-increment value stays. */
    method Restore(saved: seq<ContactApply>)
      requires ApplyRowsValid(saved, nextId)
      modifies this`rows
      ensures Valid() && rows == saved
    {
      rows := saved;
    }
  }

  lemma FilterKeepsApplyRowsValid(rows: seq<ContactApply>, nextId: int, id: int)
    requires ApplyRowsValid(rows, nextId)
    ensures ApplyRowsValid(Filter(rows, (a: ContactApply) => a.id != id), nextId)
  {
    var p := (a: ContactApply) => a.id != id;
    var before := (a1: ContactApply, a2: ContactApply) => a1.id < a2.id;
    var f := Filter(rows, p);
    FilterKeepsOrder(rows, p, before);
    forall i | 0 <= i < |f| ensures 1 <= f[i].id < nextId {
      assert f[i] in rows;
    }
    forall i, j | 0 <= i < j < |f| ensures f[i].id < f[j].id {
      assert before(f[i], f[j]);
    }
  }



  /** After `markAll`, nothing sent to that user is unread, and every other row is as it was. */
  lemma {:induction false} MarkAllClearsUnread(rows: seq<ContactApply>, userId: int)
    ensures var after := UpdateWhere(rows, (a: ContactApply) => UnreadFor(a, userId), (a: ContactApply) => a.(isRead := true));
      && Count(after, (a: ContactApply) => UnreadFor(a, userId)) == 0
      && (forall i :: 0 <= i < |rows| && rows[i].friendId != userId ==> after[i] == rows[i])
      && (forall i :: 0 <= i < |rows| ==> after[i] == rows[i].(isRead := rows[i].isRead || rows[i].friendId == userId))
  {
    var after := UpdateWhere(rows, (a: ContactApply) => UnreadFor(a, userId), (a: ContactApply) => a.(isRead := true));
    forall a | a in after ensures !UnreadFor(a, userId) {
      var k :| 0 <= k < |after| && after[k] == a;
    }
  }

  // ---------------------------------------------------------------- contact

  predicate ContactRowsValid(rows: seq<Contact>, nextId: int) {
    && 1 <= nextId
    && (forall i :: 0 <= i < |rows| ==> 1 <= rows[i].id < nextId)
    && (forall i, j :: 0 <= i < j < |rows| ==> rows[i].id < rows[j].id)
  }

  /** `ContactDao.updateById`: the ids always, the nullable columns when set. */
  function PatchContact(row: Contact, e: Contact): (r: Contact)
    ensures r.id == row.id && r.userId == e.userId && r.friendId == e.friendId
    ensures r.conversationId == SetIfPresent(e.conversationId, row.conversationId)
    ensures r.remark == SetIfPresent(e.remark, row.remark)
    ensures r.createdTime == SetIfPresent(e.createdTime, row.createdTime)
  {
    row.(userId := e.userId, friendId := e.friendId,
         conversationId := SetIfPresent(e.conversationId, row.conversationId),
         remark := SetIfPresent(e.remark, row.remark),
         createdTime := SetIfPresent(e.createdTime, row.createdTime))
  }

  class ContactDao {
    var rows: seq<Contact>
    var nextId: int

    ghost predicate Valid()
      reads this
    {
      ContactRowsValid(rows, nextId)
    }

    constructor ()
      ensures Valid() && rows == [] && nextId == 1
    {
      rows := [];
      nextId := 1;
    }

    function SelectById(id: int): (r: Option<Contact>)
      reads this
      ensures r.Some? ==> r.value in rows && r.value.id == id
      ensures r.None? <==> forall c :: c in rows ==> c.id != id
    {
      FindFirst(rows, (c: Contact) => c.id == id)
    }

    /** `list`: the caller's own rows, in table order. */
    function List(userId: int): (r: seq<Contact>)
      reads this
      ensures forall c :: c in r <==> c in rows && c.userId == userId
    {
      Filter(rows, (c: Contact) => c.userId == userId)
    }

    /** `selectByUserIdAndFriendId`: A to B and B to A are different rows. */
    function SelectByUserIdAndFriendId(userId: int, contactId: int): (r: One<Contact>)
      reads this
      ensures r.OneRow? ==> r.row in rows && r.row.userId == userId && r.row.friendId == contactId
      ensures r.NoRow? <==> forall c :: c in rows ==> !(c.userId == userId && c.friendId == contactId)
      ensures r.TooMany? <==> |Filter(rows, (c: Contact) => c.userId == userId && c.friendId == contactId)| >= 2
    {
      SelectOne(rows, (c: Contact) => c.userId == userId && c.friendId == contactId)
    }

    method Insert(row: Contact) returns (id: int)
      requires Valid()
      modifies this
      ensures Valid()
      ensures id == old(nextId) && nextId == old(nextId) + 1
      ensures rows == old(rows) + [row.(id := id)]
    {
      id := nextId;
      rows := rows + [row.(id := id)];
      nextId := nextId + 1;
    }

    /** `delete`: by primary key. */
    method Delete(id: int)
      requires Valid()
      modifies this`rows
      ensures Valid()
      ensures rows == Filter(old(rows), (c: Contact) => c.id != id)
    {
      rows := Filter(rows, (c: Contact) => c.id != id);
      FilterKeepsContactRowsValid(old(rows), nextId, id);
    }

    method UpdateById(e: Contact)
      requires Valid()
      modifies this`rows
      ensures Valid()
      ensures rows == UpdateWhere(old(rows), (c: Contact) => c.id == e.id, (c: Contact) => PatchContact(c, e))
    {
      rows := UpdateWhere(rows, (c: Contact) => c.id == e.id, (c: Contact) => PatchContact(c, e));
    }

    method Restore(saved: seq<Contact>)
      requires ContactRowsValid(saved, nextId)
      modifies this`rows
      ensures Valid() && rows == saved
    {
      rows := saved;
    }
  }

  lemma FilterKeepsContactRowsValid(rows: seq<Contact>, nextId: int, id: int)
    requires ContactRowsValid(rows, nextId)
    ensures ContactRowsValid(Filter(rows, (c: Contact) => c.id != id), nextId)
  {
    var p := (c: Contact) => c.id != id;
    var before := (c1: Contact, c2: Contact) => c1.id < c2.id;
    var f := Filter(rows, p);
    FilterKeepsOrder(rows, p, before);
    forall i | 0 <= i < |f| ensures 1 <= f[i].id < nextId {
      assert f[i] in rows;
    }
    forall i, j | 0 <= i < j < |f| ensures f[i].id < f[j].id {
      assert before(f[i], f[j]);
    }
  }



  /** Deleting by primary key removes exactly the row with that id, if any. */
  lemma {:induction false} DeleteByIdRemovesOnlyThatRow(rows: seq<Contact>, nextId: int, id: int)
    requires ContactRowsValid(rows, nextId)
    ensures var after := Filter(rows, (c: Contact) => c.id != id);
      && (forall c :: c in after <==> c in rows && c.id != id)
      && |after| == |rows| - (if exists c :: c in rows && c.id == id then 1 else 0)
  {
    var p := (c: Contact) => c.id != id;
    if rows != [] {
      DeleteByIdRemovesOnlyThatRow(rows[1..], nextId, id);
      if rows[0].id == id {
        forall c | c in rows[1..] ensures c.id != id {
          var k :| 0 <= k < |rows[1..]| && rows[1..][k] == c;
          assert rows[k + 1] == c;
        }
      } else {
        assert (exists c :: c in rows && c.id == id) <==> (exists c :: c in rows[1..] && c.id == id) by {
          if c :| c in rows && c.id == id {
            var k :| 0 <= k < |rows| && rows[k] == c;
            assert k != 0;
            assert rows[1..][k - 1] == c;
          }
        }
      }
    }
  }

  /** An update by primary key changes only the row with that id. */
  lemma {:induction false} UpdateByIdChangesOnlyThatRow(rows: seq<Contact>, e: Contact)
    ensures var after := UpdateWhere(rows, (c: Contact) => c.id == e.id, (c: Contact) => PatchContact(c, e));
      && |after| == |rows|
      && (forall i :: 0 <= i < |rows| && rows[i].id != e.id ==> after[i] == rows[i])
      && (forall i :: 0 <= i < |rows| && rows[i].id == e.id ==> after[i].id == e.id && after[i].remark == SetIfPresent(e.remark, rows[i].remark))
  {
  }

  // ---------------------------------------------------------------- conversation_member

  predicate MemberRowsValid(rows: seq<ConversationMember>, nextId: int) {
    && 1 <= nextId
    && (forall i :: 0 <= i < |rows| ==> 1 <= rows[i].id < nextId)
    && (forall i, j :: 0 <= i < j < |rows| ==> rows[i].id < rows[j].id)
  }

  /**
   * The entity `updateSettings` receives: `conversationId` and, when
   * non-null, `userId` select the rows; every non-null field and both
   * primitive flags are written.
   */
  datatype MemberSettings = MemberSettings(
    conversationId: int,
    userId: Option<int>,
    role: Option<string>,
    isMuted: bool,
    isDeleted: bool,
    lastReadMessageId: Option<int>,
    joinedTime: Option<int>)

  predicate SettingsMatch(m: ConversationMember, s: MemberSettings) {
    m.conversationId == s.conversationId && (s.userId.Some? ==> m.userId == s.userId.value)
  }

  function ApplySettings(m: ConversationMember, s: MemberSettings): (r: ConversationMember)
    ensures r.id == m.id && r.conversationId == s.conversationId
    ensures r.isMuted == s.isMuted && r.isDeleted == s.isDeleted
    ensures r.role == SetIfPresent(s.role, m.role)
  {
    m.(conversationId := s.conversationId,
       userId := if s.userId.Some? then s.userId.value else m.userId,
       role := SetIfPresent(s.role, m.role),
       isMuted := s.isMuted,
       isDeleted := s.isDeleted,
       lastReadMessageId := SetIfPresent(s.lastReadMessageId, m.lastReadMessageId),
       joinedTime := SetIfPresent(s.joinedTime, m.joinedTime))
  }

  predicate MemberOf(m: ConversationMember, conversationId: int, userId: int) {
    m.conversationId == conversationId && m.userId == userId
  }

  class ConversationMemberDao {
    var rows: seq<ConversationMember>
    var nextId: int

    ghost predicate Valid()
      reads this
    {
      MemberRowsValid(rows, nextId)
    }

    constructor ()
      ensures Valid() && rows == [] && nextId == 1
    {
      rows := [];
      nextId := 1;
    }

    method Insert(row: ConversationMember) returns (id: int)
      requires Valid()
      modifies this
      ensures Valid()
      ensures id == old(nextId) && nextId == old(nextId) + 1
      ensures rows == old(rows) + [row.(id := id)]
    {
      id := nextId;
      rows := rows + [row.(id := id)];
      nextId := nextId + 1;
    }

    function SelectByConversationIdAndUserId(conversationId: int, userId: int): (r: One<ConversationMember>)
      reads this
      ensures r.OneRow? ==> r.row in rows && MemberOf(r.row, conversationId, userId)
      ensures r.NoRow? <==> forall m :: m in rows ==> !MemberOf(m, conversationId, userId)
      ensures r.TooMany? <==> |Filter(rows, (m: ConversationMember) => MemberOf(m, conversationId, userId))| >= 2
    {
      SelectOne(rows, (m: ConversationMember) => MemberOf(m, conversationId, userId))
    }

    /** `updateSettings`: returns the number of rows matched. */
    method UpdateSettings(s: MemberSettings) returns (n: int)
      requires Valid()
      modifies this`rows
      ensures Valid()
      ensures n == Count(old(rows), (m: ConversationMember) => SettingsMatch(m, s))
      ensures rows == UpdateWhere(old(rows), (m: ConversationMember) => SettingsMatch(m, s), (m: ConversationMember) => ApplySettings(m, s))
    {
      n := Count(rows, (m: ConversationMember) => SettingsMatch(m, s));
      rows := UpdateWhere(rows, (m: ConversationMember) => SettingsMatch(m, s), (m: ConversationMember) => ApplySettings(m, s));
    }

    /** `updateLastReadMessageId`: sets that one column (to NULL when given null). */
    method UpdateLastReadMessageId(conversationId: int, userId: int, lastReadMessageId: Option<int>) returns (n: int)
      requires Valid()
      modifies this`rows
      ensures Valid()
      ensures n == Count(old(rows), (m: ConversationMember) => MemberOf(m, conversationId, userId))
      ensures rows == UpdateWhere(old(rows), (m: ConversationMember) => MemberOf(m, conversationId, userId),
                                  (m: ConversationMember) => m.(lastReadMessageId := lastReadMessageId))
    {
      n := Count(rows, (m: ConversationMember) => MemberOf(m, conversationId, userId));
      rows := UpdateWhere(rows, (m: ConversationMember) => MemberOf(m, conversationId, userId),
                          (m: ConversationMember) => m.(lastReadMessageId := lastReadMessageId));
    }

    /** `delete`: removes the rows matching both ids and returns how many. */
    method Delete(conversationId: int, userId: int) returns (n: int)
      requires Valid()
      modifies this`rows
      ensures Valid()
      ensures n == Count(old(rows), (m: ConversationMember) => MemberOf(m, conversationId, userId))
      ensures rows == Filter(old(rows), (m: ConversationMember) => !MemberOf(m, conversationId, userId))
    {
      n := Count(rows, (m: ConversationMember) => MemberOf(m, conversationId, userId));
      rows := Filter(rows, (m: ConversationMember) => !MemberOf(m, conversationId, userId));
      FilterKeepsMemberRowsValid(old(rows), nextId, conversationId, userId);
    }

    method Restore(saved: seq<ConversationMember>)
      requires MemberRowsValid(saved, nextId)
      modifies this`rows
      ensures Valid() && rows == saved
    {
      rows := saved;
    }
  }

  lemma FilterKeepsMemberRowsValid(rows: seq<ConversationMember>, nextId: int, conversationId: int, userId: int)
    requires MemberRowsValid(rows, nextId)
    ensures MemberRowsValid(Filter(rows, (m: ConversationMember) => !MemberOf(m, conversationId, userId)), nextId)
  {
    var p := (m: ConversationMember) => !MemberOf(m, conversationId, userId);
    var before := (m1: ConversationMember, m2: ConversationMember) => m1.id < m2.id;
    var f := Filter(rows, p);
    FilterKeepsOrder(rows, p, before);
    forall i | 0 <= i < |f| ensures 1 <= f[i].id < nextId {
      assert f[i] in rows;
    }
    forall i, j | 0 <= i < j < |f| ensures f[i].id < f[j].id {
      assert before(f[i], f[j]);
    }
  }



  /**
   * `updateSettings` leaves the rows of other conversations, and with a
   * user id the other members' rows, as they were; a null user id selects
   * every member of the conversation.
   */
  lemma {:induction false} UpdateSettingsScope(rows: seq<ConversationMember>, s: MemberSettings)
    ensures var after := UpdateWhere(rows, (m: ConversationMember) => SettingsMatch(m, s), (m: ConversationMember) => ApplySettings(m, s));
      && (forall i :: 0 <= i < |rows| && rows[i].conversationId != s.conversationId ==> after[i] == rows[i])
      && (forall i :: 0 <= i < |rows| && s.userId.Some? && rows[i].userId != s.userId.value ==> after[i] == rows[i])
      && (forall i :: 0 <= i < |rows| && rows[i].conversationId == s.conversationId && s.userId.None? ==>
            after[i].isDeleted == s.isDeleted && after[i].isMuted == s.isMuted)
  {
  }

  /** `updateLastReadMessageId` changes only that column, and only on the matching rows. */
  lemma {:induction false} UpdateLastReadOnlyThatColumn(rows: seq<ConversationMember>, conversationId: int, userId: int, v: Option<int>)
    ensures var after := UpdateWhere(rows, (m: ConversationMember) => MemberOf(m, conversationId, userId),
                                     (m: ConversationMember) => m.(lastReadMessageId := v));
      && (forall i :: 0 <= i < |rows| ==> after[i].(lastReadMessageId := rows[i].lastReadMessageId) == rows[i])
      && (forall i :: 0 <= i < |rows| && !MemberOf(rows[i], conversationId, userId) ==> after[i] == rows[i])
  {
  }

  // ---------------------------------------------------------------- conversation

  predicate ConversationRowsValid(rows: seq<Conversation>, nextId: int) {
    && 1 <= nextId
    && (forall i :: 0 <= i < |rows| ==> 1 <= rows[i].id < nextId)
    && (forall i, j :: 0 <= i < j < |rows| ==> rows[i].id < rows[j].id)
  }

  class ConversationDao {
    var rows: seq<Conversation>
    var nextId: int

    ghost predicate Valid()
      reads this
    {
      ConversationRowsValid(rows, nextId)
    }

    constructor ()
      ensures Valid() && rows == [] && nextId == 1
    {
      rows := [];
      nextId := 1;
    }

    method Insert(row: Conversation) returns (id: int)
      requires Valid()
      modifies this
      ensures Valid()
      ensures id == old(nextId) && nextId == old(nextId) + 1
      ensures rows == old(rows) + [row.(id := id)]
    {
      id := nextId;
      rows := rows + [row.(id := id)];
      nextId := nextId + 1;
    }

    function SelectById(id: int): (r: Option<Conversation>)
      reads this
      ensures r.Some? ==> r.value in rows && r.value.id == id
      ensures r.None? <==> forall c :: c in rows ==> c.id != id
    {
      FindFirst(rows, (c: Conversation) => c.id == id)
    }

    method Restore(saved: seq<Conversation>)
      requires ConversationRowsValid(saved, nextId)
      modifies this`rows
      ensures Valid() && rows == saved
    {
      rows := saved;
    }
  }

  // ---------------------------------------------------------------- user

  predicate UserRowsValid(rows: seq<User>, nextId: int) {
    && 1 <= nextId
    && (forall i :: 0 <= i < |rows| ==> 1 <= rows[i].id < nextId)
    && (forall i, j :: 0 <= i < j < |rows| ==> rows[i].id < rows[j].id)
  }

  /** `UserDao.updateById`: the non-null columns of the entity, and both `byte` columns. */
  function PatchUser(row: User, e: User): (r: User)
    ensures r.id == row.id && r.gender == e.gender && r.status == e.status
    ensures r.nickname == SetIfPresent(e.nickname, row.nickname)
    ensures r.avatar == SetIfPresent(e.avatar, row.avatar)
    ensures r.bio == SetIfPresent(e.bio, row.bio)
    ensures r.lastLoginTime == SetIfPresent(e.lastLoginTime, row.lastLoginTime)
  {
    row.(username := SetIfPresent(e.username, row.username),
         nickname := SetIfPresent(e.nickname, row.nickname),
         avatar := SetIfPresent(e.avatar, row.avatar),
         gender := e.gender,
         bio := SetIfPresent(e.bio, row.bio),
         status := e.status,
         createTime := SetIfPresent(e.createTime, row.createTime),
         updateTime := SetIfPresent(e.updateTime, row.updateTime),
         lastLoginTime := SetIfPresent(e.lastLoginTime, row.lastLoginTime))
  }

  class UserDao {
    var rows: seq<User>
    var nextId: int

    ghost predicate Valid()
      reads this
    {
      UserRowsValid(rows, nextId)
    }

    constructor ()
      ensures Valid() && rows == [] && nextId == 1
    {
      rows := [];
      nextId := 1;
    }

    method Insert(row: User) returns (id: int)
      requires Valid()
      modifies this
      ensures Valid()
      ensures id == old(nextId) && nextId == old(nextId) + 1
      ensures rows == old(rows) + [row.(id := id)]
    {
      id := nextId;
      rows := rows + [row.(id := id)];
      nextId := nextId + 1;
    }

    function SelectById(id: int): (r: Option<User>)
      reads this
      ensures r.Some? ==> r.value in rows && r.value.id == id
      ensures r.None? <==> forall u :: u in rows ==> u.id != id
    {
      FindFirst(rows, (u: User) => u.id == id)
    }

    /** `selectBatchIds`: one query for all the ids; rows come back in table order. */
    function SelectBatchIds(ids: seq<int>): (r: seq<User>)
      reads this
      ensures forall u :: u in r <==> u in rows && u.id in ids
    {
      Filter(rows, (u: User) => u.id in ids)
    }

    function SelectByUsername(username: string): (r: One<User>)
      reads this
      ensures r.OneRow? ==> r.row in rows && r.row.username == Some(username)
      ensures r.NoRow? <==> forall u :: u in rows ==> u.username != Some(username)
      ensures r.TooMany? <==> |Filter(rows, (u: User) => u.username == Some(username))| >= 2
    {
      SelectOne(rows, (u: User) => u.username == Some(username))
    }

    method UpdateById(e: User)
      requires Valid()
      modifies this`rows
      ensures Valid()
      ensures rows == UpdateWhere(old(rows), (u: User) => u.id == e.id, (u: User) => PatchUser(u, e))
    {
      rows := UpdateWhere(rows, (u: User) => u.id == e.id, (u: User) => PatchUser(u, e));
    }

    method Restore(saved: seq<User>)
      requires UserRowsValid(saved, nextId)
      modifies this`rows
      ensures Valid() && rows == saved
    {
      rows := saved;
    }
  }

  /** Primary keys are unique, so a lookup by id finds the one row with it. */
  lemma {:induction false} UserIdsUnique(rows: seq<User>, nextId: int, u: User, v: User)
    requires UserRowsValid(rows, nextId)
    requires u in rows && v in rows && u.id == v.id
    ensures u == v
  {
    var i :| 0 <= i < |rows| && rows[i] == u;
    var j :| 0 <= j < |rows| && rows[j] == v;
    if i < j {
      assert rows[i].id < rows[j].id;
    } else if j < i {
      assert rows[j].id < rows[i].id;
    }
  }

  // ---------------------------------------------------------------- user_auths

  predicate AuthRowsValid(rows: seq<UserAuths>, nextId: int) {
    && 1 <= nextId
    && (forall i :: 0 <= i < |rows| ==> 1 <= rows[i].id < nextId)
    && (forall i, j :: 0 <= i < j < |rows| ==> rows[i].id < rows[j].id)
  }

  lemma {:induction false} AuthIdsUnique(rows: seq<UserAuths>, nextId: int, a: UserAuths, b: UserAuths)
    requires AuthRowsValid(rows, nextId)
    requires a in rows && b in rows && a.id == b.id
    ensures a == b
  {
    var i :| 0 <= i < |rows| && rows[i] == a;
    var j :| 0 <= j < |rows| && rows[j] == b;
    if i < j {
      assert rows[i].id < rows[j].id;
    } else if j < i {
      assert rows[j].id < rows[i].id;
    }
  }

  predicate IsEmailAuth(a: UserAuths, email: string) {
    a.identityType == "email" && a.identifier == email
  }

  /** `UserAuthsDao.updateById`: a null credential is not written. */
  function PatchAuths(row: UserAuths, e: UserAuths): (r: UserAuths)
    ensures r.id == row.id && r.userId == e.userId && r.identifier == e.identifier
    ensures r.credential == SetIfPresent(e.credential, row.credential)
  {
    row.(userId := e.userId, identityType := e.identityType, identifier := e.identifier,
         credential := SetIfPresent(e.credential, row.credential))
  }

  class UserAuthsDao {
    var rows: seq<UserAuths>
    var nextId: int

    ghost predicate Valid()
      reads this
    {
      AuthRowsValid(rows, nextId)
    }

    constructor ()
      ensures Valid() && rows == [] && nextId == 1
    {
      rows := [];
      nextId := 1;
    }

    /** `selectByEmail`: the auth row of type "email" with that identifier. */
    function SelectByEmail(email: string): (r: One<UserAuths>)
      reads this
      ensures r.OneRow? ==> r.row in rows && IsEmailAuth(r.row, email)
      ensures r.NoRow? <==> forall a :: a in rows ==> !IsEmailAuth(a, email)
      ensures r.TooMany? <==> |Filter(rows, (a: UserAuths) => IsEmailAuth(a, email))| >= 2
    {
      SelectOne(rows, (a: UserAuths) => IsEmailAuth(a, email))
    }

    method Insert(row: UserAuths) returns (id: int)
      requires Valid()
      modifies this
      ensures Valid()
      ensures id == old(nextId) && nextId == old(nextId) + 1
      ensures rows == old(rows) + [row.(id := id)]
    {
      id := nextId;
      rows := rows + [row.(id := id)];
      nextId := nextId + 1;
    }

    method UpdateById(e: UserAuths)
      requires Valid()
      modifies this`rows
      ensures Valid()
      ensures rows == UpdateWhere(old(rows), (a: UserAuths) => a.id == e.id, (a: UserAuths) => PatchAuths(a, e))
    {
      rows := UpdateWhere(rows, (a: UserAuths) => a.id == e.id, (a: UserAuths) => PatchAuths(a, e));
    }

    method Restore(saved: seq<UserAuths>)
      requires AuthRowsValid(saved, nextId)
      modifies this`rows
      ensures Valid() && rows == saved
    {
      rows := saved;
    }
  }
}
