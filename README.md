# telechat core in Dafny

This project models the core of telechat, a Spring Boot chat backend:

- how friend requests and contacts live and die;
- the Redis cache-aside layer in front of the user, contact and apply tables;
- the Snowflake id generator;
- the `@FrequencyLock` guard;
- the WebSocket session registry and its envelopes;
- the verify-code account flows;
- a few pure helpers: bearer-token extraction, OSS object names and URLs, and enum lookups.

Every operation is modelled as the code does it, including its gaps, except where a line under "## Left out" says otherwise. The model proves properties about these operations.

One module per component:

- `Wrappers` (`wrappers.dfy`): Option and Result.
- `Text` (`text.dfy`): string helpers, such as Java's `lastIndexOf` and decimal rendering.
- `Query` (`query.dfy`): the semantics of the MyBatis-Plus queries.
  - `Filter` is a `where`.
  - `UpdateWhere` is an `update … where`.
  - `Count` is a `selectCount`.
  - `SelectOne` returns no row, one row or TooManyResults.
  - `SortDesc` is an `order by … desc` that puts nulls last.
- `Enums` (`enums.dfy`): ContactApplyStatus, ConversationStatus, ConversationType, WsMessageType.
- `Failures` and `Entities` (`entities.dfy`):
  - the exceptions the services throw, with their codes and messages;
  - the table rows;
  - the cache records and the view objects.
- `Dao` (`dao.dfy`): one class per table.
  - Each holds its rows and its next auto-increment id.
  - Each mapper query becomes a function, and each insert, update or delete a method.
  - `updateById` writes only the non-null fields of the entity.
- `Redis` (`redis.dfy`): the key-value store as maps of entries with an optional expiry in seconds.
- `CacheLayer` (`cache_util.dfy`): `RedisTemplateUtil`, with a ghost counter of store reads.
- `FrequencyLocking` (`frequency_lock.dfy`):
  - the reentrant lock table;
  - the around-advice, split into `Enter` (lock) and `Exit` (the `finally` unlock);
  - the pass-through cases of `parseSpelKey`.
- `Snowflake` (`snowflake.dfy`): the generator as a class.
  - `sequence` and `lastTimestamp` are its fields.
  - The clock is a sequence of successive readings.
- `ContactApplies` (`contact_apply_service.dfy`): `addContactApply`, `handleApply` and `applyList`, each under its lock.
  - A failing write is named by a `fault` index.
  - The `@Transactional` tables then roll back; Redis does not.
- `Contacts` (`contact_service.dfy`): `list`, `delete`, `update` and `getUserInfo`.
- `Users` (`user_service.dfy`): `getUserById`, `getUserIdByUsername`, `updateUserInfo` and `uploadAvatar`.
- `Oss` (`oss.dfy`): `AliOssUtil`, with the bucket as a map from object name to bytes.
- `Accounts` (`auth_service.dfy`): `isEmailExist`, `register`, `login`, `resetPassword` and `UserController.sendVerifyCode`.
- `Security` (`jwt_filter.dfy`): `JwtAuthenticationFilter`.
- `WebSocket` (`websocket.dfy`):
  - `WsMessage.of`;
  - `TelechatWebSocketHandler`, whose static session map is a field;
  - `TelechatHandshakeInterceptor`;
  - `MessageService`.

Paths in the table below are relative to the repository root.
The services' guard order is written as a function: `RegisterCheck`, `LoginCheck`, `ResetCheck`, `SendRefusal`, `OwnContact`, `ProposeCheck` or `HandleCheck`. Each state-changing method states its outcome in terms of the value of that function before the call.

## Model

| member | source | states |
|---|---|---|
| Query.SelectOne | src/main/java/com/telechat/mapper/dao/ContactDao.java:59-65 | a `selectOne` yields no row exactly when nothing matches, the single match when one does, and TooManyResults exactly when two or more match |
| Query.Filter | src/main/java/com/telechat/mapper/dao/ContactDao.java:46-50 | a `where` keeps exactly the table's rows that satisfy the condition, and no more rows than the table has |
| Query.UpdateWhere | src/main/java/com/telechat/mapper/dao/ContactApplyDao.java:118-124 | an `update … where` keeps the table's length and replaces exactly the matching rows by their updated copies, in place |
| Query.FindFirst | src/main/java/com/telechat/mapper/dao/ContactDao.java:36-37 | a primary-key lookup yields a row satisfying the key condition, and null exactly when no row does |
| Query.SortDesc | src/main/java/com/telechat/mapper/dao/ContactApplyDao.java:71 | the `orderByDesc` itself, an insertion sort; that its result is a sorted permutation is `SortDescCorrect` |
| Query.SelectOneUnique | src/main/java/com/telechat/mapper/dao/ContactApplyDao.java:83-89 | when at most one row matches, `selectOne` never fails with TooManyResults |
| Query.SortDescCorrect | src/main/java/com/telechat/mapper/dao/ContactApplyDao.java:71 | ordering by createdTime descending, nulls last, yields a sorted permutation of its input |
| Query.InsertDescSorted | src/main/java/com/telechat/mapper/dao/ContactApplyDao.java:71 | inserting one row into a descending list keeps it sorted and adds exactly that row |
| Query.FilterKeepsOrder | src/main/java/com/telechat/mapper/dao/ContactDao.java:46-50 | a `where` keeps the surviving rows in table order |
| Query.Count | src/main/java/com/telechat/mapper/dao/ContactApplyDao.java:106-111 | a count is the number of matching rows, and zero exactly when none matches |
| Enums.FindByCode | src/main/java/com/telechat/pojo/enums/ContactApplyStatus.java:33-41 | the linear search over `values()` returns a constant with that code, or null exactly when none has it |
| Enums.ApplyStatusOf | src/main/java/com/telechat/pojo/enums/ContactApplyStatus.java:33-41 | `of` returns only a status whose code is the one asked for; `ApplyStatusOfRoundTrip` and `ApplyStatusOfUnknown` give the rest |
| Enums.ApplyStatusCodesDistinct | src/main/java/com/telechat/pojo/enums/ContactApplyStatus.java:14-24 | PENDING, ACCEPTED and REJECTED have distinct codes and distinct descriptions |
| Enums.ApplyStatusOfRoundTrip | src/main/java/com/telechat/pojo/enums/ContactApplyStatus.java:33-41 | `of(s.code) == s` for every status |
| Enums.ApplyStatusOfUnknown | src/main/java/com/telechat/pojo/enums/ContactApplyStatus.java:33-41 | `of` is null exactly for null and for codes other than 0, 1, 2 |
| Enums.ConversationStatusCodesDistinct | src/main/java/com/telechat/pojo/enums/ConversationStatus.java:19-29 | DISBANDED, NORMAL and BANNED have distinct codes |
| Enums.ConversationStatusOf | src/main/java/com/telechat/pojo/enums/ConversationStatus.java:38-46 | `of` returns only a status whose code is the one asked for |
| Enums.ConversationStatusOfRoundTrip | src/main/java/com/telechat/pojo/enums/ConversationStatus.java:38-46 | `of(s.code) == s` for every status |
| Enums.ConversationStatusOfUnknown | src/main/java/com/telechat/pojo/enums/ConversationStatus.java:38-46 | `of` is null exactly for null and for unknown codes |
| Enums.ConversationTypeCodesDistinct | src/main/java/com/telechat/pojo/enums/ConversationType.java:10-28 | PRIVATE, GROUP and CHANNEL have distinct codes and descriptions |
| Enums.ConversationTypeDesc | src/main/java/com/telechat/pojo/enums/ConversationType.java:21-28 | `getDesc` returns only the description of a type with that code |
| Enums.ConversationTypeDescOfCode | src/main/java/com/telechat/pojo/enums/ConversationType.java:21-28 | `getDesc(t.code)` is t's description |
| Enums.ConversationTypeDescUnknown | src/main/java/com/telechat/pojo/enums/ConversationType.java:21-28 | `getDesc` is null exactly for codes other than 0, 1, 2 |
| Enums.WsMessageTypeOf | src/main/java/com/telechat/pojo/enums/WsMessageType.java:10-25 | a specification inverse, not a method of the enum: reading a type back from its string value yields a type with that value; it serves to prove the wire values distinct |
| Enums.WsMessageTypeValueRoundTrip | src/main/java/com/telechat/pojo/enums/WsMessageType.java:12-20 | every type's value reads back to that type, so the values are distinct, and each is lower snake case |
| Entities.UserInfoOf | src/main/java/com/telechat/util/RedisTemplateUtil.java:74-89 | the cached projection of a user carries its id, username, nickname, avatar, gender and bio |
| Entities.IsNullPlaceholder | src/main/java/com/telechat/pojo/cache/UserInfoCache.java:28-30 | `isNullPlaceholder` recognises the marker by its userId alone (-1, the id of NULL_PLACEHOLDER); a null userId is not the marker |
| Entities.PlaceholderOnlyForMissingUsers | src/main/java/com/telechat/util/RedisTemplateUtil.java:58-71 | the marker stored on a miss is a placeholder, and the projection of a stored user (id at least 1) never is |
| Dao.SetIfPresent | src/main/java/com/telechat/mapper/dao/ContactDao.java:79-81 | `updateById` writes a field only when the entity's value is non-null |
| Dao.PatchApply | src/main/java/com/telechat/mapper/dao/ContactApplyDao.java:53-55 | updating an apply by id keeps its id and isRead, writes userId, friendId and status, and createdTime only when given |
| Dao.ContactApplyDao.SelectById | src/main/java/com/telechat/mapper/dao/ContactApplyDao.java:35-37 | the row with that id, or null exactly when there is none |
| Dao.ContactApplyDao.SelectApplyList | src/main/java/com/telechat/mapper/dao/ContactApplyDao.java:67-73 | exactly the applies addressed to the user with the given status, a permutation of them sorted newest first |
| Dao.ContactApplyDao.SelectByUserIdAndFriendId | src/main/java/com/telechat/mapper/dao/ContactApplyDao.java:83-89 | the apply from userId to friendId whatever its status, direction sensitive, null exactly when none |
| Dao.ContactApplyDao.GetUnreadContactApplyCount | src/main/java/com/telechat/mapper/dao/ContactApplyDao.java:106-111 | the number of unread applies addressed to the user; zero exactly when there are none |
| Dao.ContactApplyDao.Insert | src/main/java/com/telechat/mapper/dao/ContactApplyDao.java:44-46 | appends exactly one row under the next auto-increment id and returns that id |
| Dao.ContactApplyDao.UpdateById | src/main/java/com/telechat/mapper/dao/ContactApplyDao.java:53-55 | patches the row with the entity's id and no other |
| Dao.ContactApplyDao.DeleteById | src/main/java/com/telechat/mapper/dao/ContactApplyDao.java:96-98 | removes the row with that id and keeps every other row |
| Dao.ContactApplyDao.MarkAll | src/main/java/com/telechat/mapper/dao/ContactApplyDao.java:118-124 | sets isRead on exactly the user's unread applies |
| Dao.ContactApplyDao.Restore | src/main/java/com/telechat/service/impl/ContactApplyServiceImpl.java:163 | the rollback of a `@Transactional` method puts back the saved apply rows exactly; the auto-increment value is not rolled back |
| Dao.FilterKeepsApplyRowsValid | src/main/java/com/telechat/mapper/dao/ContactApplyDao.java:96-98 | deleting by id keeps the table's primary keys unique and ordered |
| Dao.MarkAllClearsUnread | src/main/java/com/telechat/mapper/dao/ContactApplyDao.java:118-124 | after `markAll` the user's unread count is 0, applies addressed to others are unchanged, and only isRead changes |
| Dao.PatchContact | src/main/java/com/telechat/mapper/dao/ContactDao.java:79-81 | updating a contact by id keeps its id and writes conversationId, remark and createdTime only when given |
| Dao.ContactDao.SelectById | src/main/java/com/telechat/mapper/dao/ContactDao.java:36-38 | the contact with that id, or null exactly when there is none |
| Dao.ContactDao.List | src/main/java/com/telechat/mapper/dao/ContactDao.java:46-50 | exactly the contacts owned by the user |
| Dao.ContactDao.SelectByUserIdAndFriendId | src/main/java/com/telechat/mapper/dao/ContactDao.java:59-65 | the A→B row only (B→A is a different row); none or TooManyResults exactly as the matches count |
| Dao.ContactDao.Insert | src/main/java/com/telechat/mapper/dao/ContactDao.java:26-28 | appends exactly one contact under the next id |
| Dao.ContactDao.Delete | src/main/java/com/telechat/mapper/dao/ContactDao.java:71-73 | removes the contact with that id and no other |
| Dao.ContactDao.UpdateById | src/main/java/com/telechat/mapper/dao/ContactDao.java:79-81 | patches the contact with that id and no other |
| Dao.ContactDao.Restore | src/main/java/com/telechat/service/impl/ContactServiceImpl.java:110 | the rollback puts back the saved contact rows exactly |
| Dao.FilterKeepsContactRowsValid | src/main/java/com/telechat/mapper/dao/ContactDao.java:71-73 | deleting by id keeps the primary keys unique and ordered |
| Dao.DeleteByIdRemovesOnlyThatRow | src/main/java/com/telechat/mapper/dao/ContactDao.java:71-73 | the rows left are those with another id, and the table shrinks by one exactly when the id existed |
| Dao.UpdateByIdChangesOnlyThatRow | src/main/java/com/telechat/mapper/dao/ContactDao.java:79-81 | rows with another id are unchanged; the matching row keeps its id and takes the new remark when one is given |
| Dao.ApplySettings | src/main/java/com/telechat/mapper/dao/ConversationMemberDao.java:55-65 | `updateSettings` always writes isMuted and isDeleted (primitive booleans) and writes role only when given |
| Dao.ConversationMemberDao.Insert | src/main/java/com/telechat/mapper/dao/ConversationMemberDao.java:25-27 | appends exactly one member row under the next id |
| Dao.ConversationMemberDao.SelectByConversationIdAndUserId | src/main/java/com/telechat/mapper/dao/ConversationMemberDao.java:36-41 | a row matching both conversation and user, null exactly when none |
| Dao.ConversationMemberDao.UpdateSettings | src/main/java/com/telechat/mapper/dao/ConversationMemberDao.java:55-65 | updates the rows of the conversation, and of that user only when a userId is given; returns how many matched |
| Dao.ConversationMemberDao.UpdateLastReadMessageId | src/main/java/com/telechat/mapper/dao/ConversationMemberDao.java:70-79 | sets lastReadMessageId on the rows matching both ids and returns their count |
| Dao.ConversationMemberDao.Delete | src/main/java/com/telechat/mapper/dao/ConversationMemberDao.java:84-90 | removes exactly the rows matching both ids and returns their count |
| Dao.ConversationMemberDao.Restore | src/main/java/com/telechat/service/impl/ContactServiceImpl.java:110 | the rollback puts back the saved member rows exactly |
| Dao.FilterKeepsMemberRowsValid | src/main/java/com/telechat/mapper/dao/ConversationMemberDao.java:84-90 | the delete keeps the primary keys unique and ordered |
| Dao.UpdateSettingsScope | src/main/java/com/telechat/mapper/dao/ConversationMemberDao.java:55-65 | rows of other conversations, and of other users when a userId is given, are untouched; without a userId every row of the conversation is updated |
| Dao.UpdateLastReadOnlyThatColumn | src/main/java/com/telechat/mapper/dao/ConversationMemberDao.java:70-79 | only lastReadMessageId changes, and only on the matching rows |
| Dao.ConversationDao.Insert | src/main/java/com/telechat/mapper/dao/ConversationDao.java:23-25 | appends exactly one conversation under the next id |
| Dao.ConversationDao.SelectById | src/main/java/com/telechat/mapper/dao/ConversationDao.java:33-35 | the conversation with that id, or null exactly when none |
| Dao.ConversationDao.Restore | src/main/java/com/telechat/service/impl/ContactApplyServiceImpl.java:163 | the rollback puts back the saved conversation rows exactly |
| Dao.PatchUser | src/main/java/com/telechat/mapper/dao/UserDao.java:45-47 | updating a user keeps its id, always writes gender and status (primitives), and writes nickname, avatar, bio and lastLoginTime only when given |
| Dao.UserDao.Insert | src/main/java/com/telechat/mapper/dao/UserDao.java:25-28 | appends exactly one user under the next id and returns it |
| Dao.UserDao.SelectById | src/main/java/com/telechat/mapper/dao/UserDao.java:36-38 | the user with that id, or null exactly when none |
| Dao.UserDao.SelectBatchIds | src/main/java/com/telechat/util/RedisTemplateUtil.java:130-132 | exactly the users whose ids are among those asked for |
| Dao.UserDao.SelectByUsername | src/main/java/com/telechat/mapper/dao/UserDao.java:55-59 | a user with that username, null exactly when none has it |
| Dao.UserDao.UpdateById | src/main/java/com/telechat/mapper/dao/UserDao.java:45-47 | patches the user with that id and no other |
| Dao.UserDao.Restore | src/main/java/com/telechat/service/impl/UserAuthsServiceImpl.java:58 | the rollback puts back the saved user rows exactly |
| Dao.UserIdsUnique | src/main/java/com/telechat/mapper/dao/UserDao.java:36-38 | two users of the table with the same id are the same row |
| Dao.AuthIdsUnique | src/main/java/com/telechat/mapper/dao/UserAuthsDao.java:50-53 | two auth rows with the same id are the same row |
| Dao.PatchAuths | src/main/java/com/telechat/mapper/dao/UserAuthsDao.java:50-53 | updating an auth row keeps its id and writes the credential only when given |
| Dao.UserAuthsDao.SelectByEmail | src/main/java/com/telechat/mapper/dao/UserAuthsDao.java:29-34 | the auth row of type "email" with that identifier, null exactly when none |
| Dao.UserAuthsDao.Insert | src/main/java/com/telechat/mapper/dao/UserAuthsDao.java:40-43 | appends exactly one auth row under the next id |
| Dao.UserAuthsDao.UpdateById | src/main/java/com/telechat/mapper/dao/UserAuthsDao.java:50-53 | patches the auth row with that id and no other |
| Dao.UserAuthsDao.Restore | src/main/java/com/telechat/service/impl/UserAuthsServiceImpl.java:58 | the rollback puts back the saved auth rows exactly |
| Redis.Lookup | src/main/java/com/telechat/util/RedisTemplateUtil.java:43 | a `get` yields the stored value exactly when the key exists and has not expired |
| Redis.TimeToLive | src/main/java/com/telechat/controller/user/UserController.java:74 | `getExpire` is -2 exactly for a missing key, -1 exactly for a key without expiry, otherwise the positive seconds left |
| Redis.RedisStore.SetUserInfo | src/main/java/com/telechat/util/RedisTemplateUtil.java:83-88 | a `set` with a TTL replaces that one key and expires it after the given seconds |
| Redis.RedisStore.MultiSetUserInfo | src/main/java/com/telechat/util/RedisTemplateUtil.java:157 | `multiSet` writes every given key, without expiry |
| Redis.RedisStore.ExpireUserInfo | src/main/java/com/telechat/util/RedisTemplateUtil.java:162 | `expire` succeeds exactly on a live key and only resets its expiry |
| Redis.RedisStore.DeleteUserInfo | src/main/java/com/telechat/util/RedisTemplateUtil.java:179 | removes that key only |
| Redis.RedisStore.DeleteContacts | src/main/java/com/telechat/util/RedisTemplateUtil.java:268 | a batch delete removes exactly the given keys |
| Redis.RedisStore.SetContacts | src/main/java/com/telechat/util/RedisTemplateUtil.java:233-237 | `SET` of a contact list with a TTL replaces that user's entry and no other |
| Redis.RedisStore.SetApplies | src/main/java/com/telechat/util/RedisTemplateUtil.java:321-325 | `SET` of an apply list with a TTL replaces that user's entry and no other |
| Redis.RedisStore.DeleteApplies | src/main/java/com/telechat/util/RedisTemplateUtil.java:338 | `DEL` removes that user's apply list and no other key |
| Redis.RedisStore.GetString | src/main/java/com/telechat/service/impl/UserAuthsServiceImpl.java:72 | a string key's live value, or null |
| Redis.RedisStore.SetString | src/main/java/com/telechat/controller/user/UserController.java:101 | stores the code under that key with the given TTL and touches no other key |
| Redis.RedisStore.DeleteString | src/main/java/com/telechat/service/impl/UserAuthsServiceImpl.java:153 | removes that key only |
| CacheLayer.ContactsCacheList | src/main/java/com/telechat/util/RedisTemplateUtil.java:223-230 | one cached relation per contact row, in order, with its id, friendId and remark |
| CacheLayer.ApplyCacheList | src/main/java/com/telechat/util/RedisTemplateUtil.java:311-318 | one cached apply per row, in order, each tagged with the PENDING description |
| CacheLayer.CachedAmong | src/main/java/com/telechat/util/RedisTemplateUtil.java:117-127 | the hits are exactly the requested ids with a live entry, placeholders included, mapped to the cached value |
| CacheLayer.MissedIds | src/main/java/com/telechat/util/RedisTemplateUtil.java:117-127 | the misses are exactly the requested ids without a live entry |
| CacheLayer.BatchWrites | src/main/java/com/telechat/util/RedisTemplateUtil.java:157-165 | the batch write-back covers exactly the fetched users, each expiring after USER_INFO_DURATION hours |
| CacheLayer.ProjectionsKeys | src/main/java/com/telechat/util/RedisTemplateUtil.java:137-153 | the fetched projections are keyed by exactly the ids of the users found |
| CacheLayer.ProjectionsOfUniqueIds | src/main/java/com/telechat/util/RedisTemplateUtil.java:137-153 | with unique ids, each found user's entry is its own projection |
| CacheLayer.PartitionStep | src/main/java/com/telechat/util/RedisTemplateUtil.java:117-127 | one more id adds either a hit or a miss, in order |
| CacheLayer.BatchResultCorrect | src/main/java/com/telechat/util/RedisTemplateUtil.java:99-169 | the merged map gives the cached value for each hit and the store projection for each miss found in the store |
| CacheLayer.RedisTemplateUtil.GetUserInfoCache | src/main/java/com/telechat/util/RedisTemplateUtil.java:39-90 | a hit never reads the store: a placeholder yields null, any other entry itself. On a miss the store is read once; a missing user stores the placeholder for EMPTY_DATA minutes and yields null; a found user stores and returns its projection for USER_INFO_DURATION minutes. The result is never a placeholder |
| CacheLayer.RedisTemplateUtil.PartitionCached | src/main/java/com/telechat/util/RedisTemplateUtil.java:110-127 | the loop over the multi-get splits the ids into exactly the hits and the misses |
| CacheLayer.RedisTemplateUtil.ProjectFetched | src/main/java/com/telechat/util/RedisTemplateUtil.java:137-153 | the loop over fetched users adds each projection to the result and to the write-back map |
| CacheLayer.RedisTemplateUtil.WriteBack | src/main/java/com/telechat/util/RedisTemplateUtil.java:155-164 | `multiSet` then a per-key `expire` leave each written user expiring in USER_INFO_DURATION hours |
| CacheLayer.RedisTemplateUtil.BatchEntry | src/main/java/com/telechat/util/RedisTemplateUtil.java:99-169 | what the batch read yields for one id: the cached entry when live (a placeholder as is), else the store projection if the user exists |
| CacheLayer.RedisTemplateUtil.GetUserInfoCacheMapByIds | src/main/java/com/telechat/util/RedisTemplateUtil.java:99-169 | null or empty input gives an empty map. Every key is a requested id. Hits, placeholders included, come from the cache. Misses come from one store query that runs only when something missed. Only found users are written back, expiring in hours |
| CacheLayer.RedisTemplateUtil.DeleteUserInfoCache | src/main/java/com/telechat/util/RedisTemplateUtil.java:177-181 | removes exactly that user's info entry |
| CacheLayer.RedisTemplateUtil.GetContactCache | src/main/java/com/telechat/util/RedisTemplateUtil.java:192-241 | a hit, the empty-list marker included, is returned without a store read. A miss reads the user's contacts once and caches them for USER_CONTACTS_INFO_DURATION (30) minutes, or the empty marker for EMPTY_DATA minutes |
| CacheLayer.RedisTemplateUtil.DeleteContactCache | src/main/java/com/telechat/util/RedisTemplateUtil.java:249-253 | removes exactly that user's contact list |
| CacheLayer.RedisTemplateUtil.DeleteContactCaches | src/main/java/com/telechat/util/RedisTemplateUtil.java:261-270 | null input is a no-op; otherwise exactly the listed users' contact lists are removed |
| CacheLayer.RedisTemplateUtil.GetContactApplyCache | src/main/java/com/telechat/util/RedisTemplateUtil.java:279-328 | a hit returns without a store read. A miss caches the user's PENDING inbox, newest first, for USER_CONTACT_APPLIES_DURATION minutes, or the empty marker for EMPTY_DATA minutes |
| CacheLayer.RedisTemplateUtil.DeleteContactApplyCache | src/main/java/com/telechat/util/RedisTemplateUtil.java:336-340 | removes exactly that user's apply inbox |
| CacheLayer.ContactCacheIsOwnRelations | src/main/java/com/telechat/util/RedisTemplateUtil.java:199-221 | over the contact table itself: a friend appears in the list cached from `List(userId)` exactly when the table has a row of that user for that friend |
| CacheLayer.ApplyCacheIsPendingInbox | src/main/java/com/telechat/util/RedisTemplateUtil.java:297-327 | every cached apply is PENDING, comes from a PENDING row addressed to the user, and the list is newest first |
| FrequencyLocking.LockTable.TryLock | src/main/java/com/telechat/annotation/aspect/FrequencyLockAspect.java:48-52 | the reentrant lock is granted when free, when already held by the caller, or when waitTime > 0 and the holder releases in time; a grant leaves the table as `Taken` gives it |
| FrequencyLocking.LockTable.Unlock | src/main/java/com/telechat/annotation/aspect/FrequencyLockAspect.java:60-64 | leaves the table as `Released` gives it: one hold fewer, the key freed at the last one |
| FrequencyLocking.Taken | src/main/java/com/telechat/annotation/aspect/FrequencyLockAspect.java:48-52 | after a grant the caller holds the key at least once and no other key changes |
| FrequencyLocking.Released | src/main/java/com/telechat/annotation/aspect/FrequencyLockAspect.java:60-64 | after an unlock the key keeps its owner with one hold fewer, is gone exactly when that was its last hold, and no other key changes |
| FrequencyLocking.EnterExitRestores | src/main/java/com/telechat/annotation/aspect/FrequencyLockAspect.java:42-65 | taking a free or own lock and releasing it restores the lock table: `Released(Taken(holds, key, thread), key) == holds` |
| FrequencyLocking.LockTable.LeaseExpires | src/main/java/com/telechat/annotation/aspect/FrequencyLockAspect.java:48-52 | when the lease runs out the key is freed and nothing else changes |
| FrequencyLocking.ParseSpelKey | src/main/java/com/telechat/annotation/aspect/FrequencyLockAspect.java:67-93 | an expression without '#' and one with no parameter names are returned verbatim; otherwise the evaluated key, with null becoming "" |
| FrequencyLocking.Enter | src/main/java/com/telechat/annotation/aspect/FrequencyLockAspect.java:42-57 | acquisition succeeds exactly when `tryLock` grants; a refusal throws a FrequencyException with the annotation's message and leaves the table unchanged |
| FrequencyLocking.Exit | src/main/java/com/telechat/annotation/aspect/FrequencyLockAspect.java:60-64 | the `finally` unlocks only when the lock was taken and is still held by this caller |
| FrequencyLocking.DuplicateSubmissionRejected | src/main/java/com/telechat/annotation/aspect/FrequencyLockAspect.java:42-65 | with fail-fast defaults a second thread's call made while the first holds the lock is refused, and a call made after the release succeeds |
| Snowflake.Wrap64 | src/main/java/com/telechat/util/SnowflakeIdGenerator.java:65-70 | Java's 64-bit `long` wrap-around: in range, and the identity on values that fit |
| Snowflake.IdFieldsRoundTrip | src/main/java/com/telechat/util/SnowflakeIdGenerator.java:25-27 | in the 41-bit epoch window the id is non-negative and its timestamp, datacenter, worker and sequence fields decode back by shifting and masking |
| Snowflake.LowBitsBelowTimeField | src/main/java/com/telechat/util/SnowflakeIdGenerator.java:67-70 | datacenter, worker and sequence together fit below bit 22 |
| Snowflake.IdsIncrease | src/main/java/com/telechat/util/SnowflakeIdGenerator.java:67-70 | a later (timestamp, sequence) pair gives a strictly larger id |
| Snowflake.CheckIds | src/main/java/com/telechat/util/SnowflakeIdGenerator.java:35-44 | the constructor refuses workerId outside [0, 31] first, then datacenterId outside [0, 31] |
| Snowflake.SnowflakeIdGenerator.constructor | src/main/java/com/telechat/util/SnowflakeIdGenerator.java:35-44 | ids in range give a generator with sequence 0 and lastTimestamp -1 |
| Snowflake.SnowflakeIdGenerator.Create | src/main/java/com/telechat/util/SnowflakeIdGenerator.java:35-44 | the constructor throws the first failing range check, workerId before datacenterId, and otherwise yields a fresh generator with those ids |
| Snowflake.SnowflakeIdGenerator.WaitNextMillis | src/main/java/com/telechat/util/SnowflakeIdGenerator.java:73-78 | the busy loop reads the clock until it passes lastTimestamp, and returns the first reading that does |
| Snowflake.SnowflakeIdGenerator.NextId | src/main/java/com/telechat/util/SnowflakeIdGenerator.java:49-71 | a clock behind lastTimestamp throws and changes nothing. Within the same millisecond the sequence becomes (sequence+1) & 4095, and a wrap waits for a later millisecond with sequence 0. A later millisecond resets the sequence to 0. The id encodes the new lastTimestamp and sequence, and the pair strictly advances |
| Snowflake.SuccessiveIdsIncrease | src/test/java/com/telechat/SnowflakeIdTest.java:61-65 | ids of successive calls are strictly increasing and so distinct |
| Text.LastIndexOf | src/main/java/com/telechat/util/AliOssUtil.java:41-42 | Java's `lastIndexOf`: -1 exactly when the char is absent, else the last position holding it |
| ContactApplies.ApplyLockKey | src/main/java/com/telechat/service/impl/ContactApplyServiceImpl.java:68-69 | the propose lock key starts with "lock:contact:apply:" |
| ContactApplies.HandleLockKey | src/main/java/com/telechat/service/impl/ContactApplyServiceImpl.java:164-165 | the handle lock key starts with "lock:contact:handle:" |
| ContactApplies.LockKeysParsed | src/main/java/com/telechat/service/impl/ContactApplyServiceImpl.java:68-69 | the aspect resolves the propose annotation's expression to the propose key |
| ContactApplies.ApplyLockKeyInjective | src/main/java/com/telechat/service/impl/ContactApplyServiceImpl.java:68-69 | distinct (userId, contactUserName) pairs lock distinct keys |
| ContactApplies.HandleLockKeyInjective | src/main/java/com/telechat/service/impl/ContactApplyServiceImpl.java:164-165 | distinct apply ids lock distinct keys |
| ContactApplies.LockKeysDisjoint | src/main/java/com/telechat/service/impl/ContactApplyServiceImpl.java:68-69 | a propose never contends with a handle for a lock |
| ContactApplies.ApplyVOOf | src/main/java/com/telechat/service/impl/ContactApplyServiceImpl.java:142-152 | a VO copies the cached apply's id, sender, status and time, with the sender's avatar and nickname, or a null avatar and "未知用户" when the sender is unresolved |
| ContactApplies.ContactApplyServiceImpl.ProposeCheck | src/main/java/com/telechat/service/impl/ContactApplyServiceImpl.java:75-92 | in order: unknown username is NOT_EXIST, oneself is NOT_ALLOWED, an existing caller→target contact is ALREADY_EXIST, duplicate rows are TooManyResults; otherwise the target's id |
| ContactApplies.ContactApplyServiceImpl.HandleCheck | src/main/java/com/telechat/service/impl/ContactApplyServiceImpl.java:172-186 | in order: missing apply is NOT_EXIST, a caller other than its friendId is NOT_ALLOWED, a status other than PENDING is NOT_ALLOWED; otherwise the PENDING apply addressed to the caller |
| ContactApplies.ContactApplyServiceImpl.AddContactApply | src/main/java/com/telechat/service/impl/ContactApplyServiceImpl.java:68-116 | a held lock refuses the call with the lock message and changes nothing. Otherwise a failed check changes nothing. A first proposal inserts one PENDING row; an earlier REJECTED or ACCEPTED row is reused as PENDING with a fresh time; a PENDING one is left as is. The target's inbox is evicted and true returned. A failing write rolls back. The lock table ends as it began |
| ContactApplies.ContactApplyServiceImpl.ProposeBody | src/main/java/com/telechat/service/impl/ContactApplyServiceImpl.java:73-116 | the transactional body: the checks, at most one write, then the eviction of the target's inbox |
| ContactApplies.ContactApplyServiceImpl.ProposeWrite | src/main/java/com/telechat/service/impl/ContactApplyServiceImpl.java:97-111 | the insert or reuse of the (caller, target) apply; a failing write leaves the table unchanged |
| ContactApplies.ContactApplyServiceImpl.HandleApply | src/main/java/com/telechat/service/impl/ContactApplyServiceImpl.java:164-259 | a held lock refuses and changes nothing. Otherwise a failed check changes nothing. A refusal sets REJECTED and evicts only the handler's inbox. An acceptance evicts both users' contact lists and the handler's inbox, then commits ACCEPTED, one PRIVATE NORMAL conversation, two mirrored contacts in it and two members, or on a failing write rolls all four tables back. The lock table ends as it began |
| ContactApplies.ContactApplyServiceImpl.Acquire | src/main/java/com/telechat/annotation/aspect/FrequencyLockAspect.java:48-57 | the fail-fast lock is granted exactly when no other thread holds it; a refusal carries the annotation's message and changes nothing |
| ContactApplies.ContactApplyServiceImpl.ReleaseTaken | src/main/java/com/telechat/annotation/aspect/FrequencyLockAspect.java:60-64 | releasing a lock this call took restores the table from before it |
| ContactApplies.ContactApplyServiceImpl.HandleBody | src/main/java/com/telechat/service/impl/ContactApplyServiceImpl.java:168-259 | the transactional body of `handleApply` |
| ContactApplies.ContactApplyServiceImpl.Reject | src/main/java/com/telechat/service/impl/ContactApplyServiceImpl.java:189-195 | REJECTED is written and only the handler's inbox evicted; no contact, conversation or member row appears |
| ContactApplies.ContactApplyServiceImpl.Accept | src/main/java/com/telechat/service/impl/ContactApplyServiceImpl.java:197-256 | both contact lists and the handler's inbox are evicted before the writes and stay evicted; the six writes commit together or not at all |
| ContactApplies.ContactApplyServiceImpl.AcceptTransaction | src/main/java/com/telechat/service/impl/ContactApplyServiceImpl.java:203-256 | all-or-nothing: any failing write restores all four tables |
| ContactApplies.ContactApplyServiceImpl.AcceptWrites | src/main/java/com/telechat/service/impl/ContactApplyServiceImpl.java:205-256 | ACCEPTED, one PRIVATE NORMAL conversation, then the friendship rows; completes exactly when no write fails |
| ContactApplies.ContactApplyServiceImpl.FriendshipWrites | src/main/java/com/telechat/service/impl/ContactApplyServiceImpl.java:224-256 | two mirrored contacts sharing the conversation, then one member row per user |
| ContactApplies.PrivateConversation | src/main/java/com/telechat/service/impl/ContactApplyServiceImpl.java:211-217 | the new conversation is PRIVATE and NORMAL, has no title or owner, and is created and updated now |
| ContactApplies.MirroredContacts | src/main/java/com/telechat/service/impl/ContactApplyServiceImpl.java:224-238 | two rows in the new conversation, A listing B and B listing A, without remark, created now |
| ContactApplies.MemberPair | src/main/java/com/telechat/service/impl/ContactApplyServiceImpl.java:243-253 | two members of the new conversation, proposer then handler, joined now; role, isMuted, isDeleted and lastReadMessageId are left to their defaults |
| ContactApplies.ContactApplyServiceImpl.Rollback | src/main/java/com/telechat/service/impl/ContactApplyServiceImpl.java:163 | the rollback of `@Transactional` restores the four tables |
| ContactApplies.ContactApplyServiceImpl.ApplyList | src/main/java/com/telechat/service/impl/ContactApplyServiceImpl.java:123-153 | one VO per entry of the (cached or freshly loaded) inbox, in the same order, each with the sender resolved through the batch user-info read |
| ContactApplies.ProposeKeepsPairsUnique | src/main/java/com/telechat/service/impl/ContactApplyServiceImpl.java:97-111 | proposing never creates a second apply for the same ordered pair |
| ContactApplies.PatchKeepsPairs | src/main/java/com/telechat/service/impl/ContactApplyServiceImpl.java:103-111 | reusing a row by id keeps every row's pair and the uniqueness of pairs |
| ContactApplies.UniquePairFound | src/main/java/com/telechat/mapper/dao/ContactApplyDao.java:83-89 | with unique pairs, the pair lookup finds exactly the existing apply |
| ContactApplies.ProposeLeavesOnePending | src/main/java/com/telechat/service/impl/ContactApplyServiceImpl.java:97-111 | afterwards the pair has exactly one apply and it is PENDING. A reused REJECTED or ACCEPTED row keeps its id with a fresh time and no row is added. A PENDING one is unchanged |
| ContactApplies.HandleKeepsPairs | src/main/java/com/telechat/service/impl/ContactApplyServiceImpl.java:189-207 | handling keeps pairs unique and leaves the apply with its new status |
| ContactApplies.AcceptMakesMirroredFriends | src/main/java/com/telechat/service/impl/ContactApplyServiceImpl.java:223-240 | on a table without the pair, acceptance leaves exactly one A→B and one B→A contact, distinct rows sharing the new conversation |
| ContactApplies.AcceptDuplicatesSurvivingMirror | src/main/java/com/telechat/service/impl/ContactApplyServiceImpl.java:223-240 | when a B→A row survived an earlier one-sided delete, acceptance inserts it again and the pair lookup then fails with TooManyResults |
| ContactApplies.AcceptedConversationMembers | src/main/java/com/telechat/service/impl/ContactApplyServiceImpl.java:242-256 | the new conversation has exactly two members, proposer then handler, neither muted nor deleted, joined now |
| ContactApplies.PlaceholderSenderHasNoName | src/main/java/com/telechat/service/impl/ContactApplyServiceImpl.java:142-152 | a cached placeholder sender yields a null nickname, while an unresolved sender yields "未知用户" |
| Contacts.ContactVOOf | src/main/java/com/telechat/service/impl/ContactServiceImpl.java:82-100 | the VO takes id, friend and remark from the relation and the profile from the user info; the profile is null when the friend is unresolved |
| Contacts.RemarkOf | src/main/java/com/telechat/service/impl/ContactServiceImpl.java:179-182 | a non-null, non-empty remark is kept; otherwise "" |
| Contacts.UserFromInfo | src/main/java/com/telechat/service/impl/ContactServiceImpl.java:198-211 | the user built from a cache record has the record's profile, the asked id, status 0 and no timestamps |
| Contacts.ContactServiceImpl.List | src/main/java/com/telechat/service/impl/ContactServiceImpl.java:64-101 | one VO per cached or freshly loaded relation, in order, with the friend's info from the batch read; an empty relation list gives an empty result |
| Contacts.ContactServiceImpl.OwnContact | src/main/java/com/telechat/service/impl/ContactServiceImpl.java:114-121 | missing contact is NOT_EXIST, another user's contact is NOT_ALLOWED; succeeds exactly on the caller's own row |
| Contacts.ContactServiceImpl.Delete | src/main/java/com/telechat/service/impl/ContactServiceImpl.java:112-160 | the ownership checks, then a null conversation is NOT_EXIST, all before any write. Success removes only the caller's row and leaves the peer's mirror. It soft-deletes and un-mutes only the caller's membership and evicts the caller's contact list. A failing write changes nothing |
| Contacts.LeaveSettings | src/main/java/com/telechat/service/impl/ContactServiceImpl.java:132-138 | the settings `delete` writes name the caller's membership in that conversation, set isDeleted, leave isMuted at its primitive false and write no other column |
| Contacts.ContactServiceImpl.Update | src/main/java/com/telechat/service/impl/ContactServiceImpl.java:171-189 | the ownership checks. Success sets the remark (or "") on that row only and evicts the caller's contact list. A failing write changes nothing |
| Contacts.ContactServiceImpl.UpdateWrites | src/main/java/com/telechat/service/impl/ContactServiceImpl.java:183-186 | persist the row, then evict the caller's contact list |
| Contacts.ContactServiceImpl.GetUserInfo | src/main/java/com/telechat/service/impl/ContactServiceImpl.java:197-235 | a hit returns the cached profile without writing (a placeholder gives a user with null fields). A miss on a missing user is a NullPointerException. A miss on a found user caches its projection for 30 + jitter minutes |
| Contacts.UserInfoMatchesRow | src/main/java/com/telechat/service/impl/ContactServiceImpl.java:213-229 | read through the cache, a stored user keeps its id, username, nickname, avatar, gender and bio |
| Contacts.DeleteKeepsMirror | src/main/java/com/telechat/service/impl/ContactServiceImpl.java:129-130 | deleting A's contact removes that row only; B's mirror row stays |
| Contacts.LeaveUnmutes | src/main/java/com/telechat/service/impl/ContactServiceImpl.java:132-138 | leaving marks only the caller's membership deleted and un-muted and keeps its id, role, last read and join time |
| Contacts.UpdateRemarkOnLoadedRow | src/main/java/com/telechat/service/impl/ContactServiceImpl.java:179-183 | on a table with unique ids the update replaces exactly the loaded row by its renamed copy |
| Users.WithInfo | src/main/java/com/telechat/service/impl/UserServiceImpl.java:48-54 | overwrites nickname, gender and bio and keeps every other field |
| Users.OldAvatarDeletion | src/main/java/com/telechat/service/impl/UserServiceImpl.java:66-69 | the old avatar is deleted by URL only when it is non-null and not the default avatar |
| Users.RemovedObjects | src/main/java/com/telechat/service/impl/UserServiceImpl.java:66-69 | an object is removed exactly when that deletion runs and succeeds, and it is the one named by the URL's path |
| Users.UserServiceImpl.GetUserById | src/main/java/com/telechat/service/impl/UserServiceImpl.java:37-39 | the user with that id, or null exactly when none |
| Users.UserServiceImpl.GetUserIdByUsername | src/main/java/com/telechat/service/impl/UserServiceImpl.java:84-90 | null exactly when no user has the username, else that user's id; two holders are TooManyResults |
| Users.UserServiceImpl.UpdateUserInfo | src/main/java/com/telechat/service/impl/UserServiceImpl.java:48-54 | returns the user with the new nickname, gender and bio and persists it by id |
| Users.UserServiceImpl.UploadAvatar | src/main/java/com/telechat/service/impl/UserServiceImpl.java:64-75 | the old avatar's deletion runs first and its failure aborts the call. Then the upload's outcome is returned. On success the row's avatar becomes the returned URL. On failure the row is unchanged, but the old object may already be gone |
| Users.UpdateUserInfoOnLoadedRow | src/main/java/com/telechat/service/impl/UserServiceImpl.java:48-54 | the update replaces exactly the loaded row, with the three fields changed |
| Users.UploadAvatarOnLoadedRow | src/main/java/com/telechat/service/impl/UserServiceImpl.java:70-74 | the update replaces exactly the loaded row, with the new avatar |
| Users.FailedUploadLosesOldAvatar | src/main/java/com/telechat/service/impl/UserServiceImpl.java:66-73 | an oversized upload fails after the old avatar's object was deleted, so the row still points at a deleted file |
| Oss.Extension | src/main/java/com/telechat/util/AliOssUtil.java:41-42 | the suffix from the last '.' inclusive is a '.'-led tail of the filename with no further '.' |
| Oss.ObjectName | src/main/java/com/telechat/util/AliOssUtil.java:41-42 | the object name is the UUID followed by that suffix |
| Oss.StripLeadingSlash | src/main/java/com/telechat/util/AliOssUtil.java:132-141 | exactly one leading '/' is removed from the path |
| Oss.AliOssUtil.ObjectUrl | src/main/java/com/telechat/util/AliOssUtil.java:62-94 | "https://" + bucket + "." + endpoint + "/" + objectName, ending in the object name |
| Oss.AliOssUtil.UploadFileOutcome | src/main/java/com/telechat/util/AliOssUtil.java:30-48 | oversized files fail with the max-size code first; a null filename fails with the upload code; a filename without '.' is an uncaught index error; unreadable bytes fail with the upload code; else the object's URL |
| Oss.AliOssUtil.Upload | src/main/java/com/telechat/util/AliOssUtil.java:57-95 | returns the URL even when the put fails; only a successful put stores the bytes |
| Oss.AliOssUtil.UploadFile | src/main/java/com/telechat/util/AliOssUtil.java:30-48 | the outcome above; the bucket changes only on a successful upload |
| Oss.AliOssUtil.Delete | src/main/java/com/telechat/util/AliOssUtil.java:102-118 | removes exactly that object, or fails with the delete code and changes nothing |
| Oss.AliOssUtil.DeleteByUrl | src/main/java/com/telechat/util/AliOssUtil.java:125-142 | a null or non-"http" URL is refused; otherwise the path without its leading '/' is deleted, and any failure is the delete code with nothing changed |
| Oss.AliOssUtil.DeleteByUrlOutcome | src/main/java/com/telechat/util/AliOssUtil.java:125-142 | a null or non-"http" URL throws "无效的文件URL"; otherwise the call succeeds exactly when the path parses and the delete succeeds, and every other failure throws "文件URL格式错误" |
| Oss.ObjectUrlInjective | src/main/java/com/telechat/util/AliOssUtil.java:62-94 | distinct object names give distinct URLs |
| Oss.UploadThenDeleteByUrl | src/main/java/com/telechat/util/AliOssUtil.java:30-142 | the URL an upload returns is accepted by `deleteByUrl`, which removes the object |
| Accounts.PickUsername | src/main/java/com/telechat/service/impl/UserAuthsServiceImpl.java:78-82 | the generated username is one of the draws and is held by no existing user |
| Accounts.NewUser | src/main/java/com/telechat/service/impl/UserAuthsServiceImpl.java:83-93 | the new user has the generated username, the email as nickname, the default avatar, status 1 and gender 0 |
| Accounts.CodePurpose | src/main/java/com/telechat/controller/user/UserController.java:58-70 | only types 1, 2 and 3 have a key prefix |
| Accounts.CodeKey | src/main/java/com/telechat/controller/user/UserController.java:72 | a code key is the purpose, one ':' and the identifier, so the identifier can be read back from it |
| Accounts.UserAuthsServiceImpl.IsEmailExist | src/main/java/com/telechat/service/impl/UserAuthsServiceImpl.java:47-51 | true exactly when an auth row of type "email" has that identifier; two such rows are TooManyResults |
| Accounts.UserAuthsServiceImpl.RegisterCheck | src/main/java/com/telechat/service/impl/UserAuthsServiceImpl.java:60-82 | a type other than "email" is a RegisterException. An existing email is an EmailException. A missing or wrong code under "register:"+email is a VerifyCodeException. Otherwise an unused username |
| Accounts.UserAuthsServiceImpl.GenerateUsername | src/main/java/com/telechat/service/impl/UserAuthsServiceImpl.java:78-82 | the `while` loop stops at the first draw no user holds |
| Accounts.UserAuthsServiceImpl.Register | src/main/java/com/telechat/service/impl/UserAuthsServiceImpl.java:60-111 | a failed check inserts nothing. Success inserts one user and one "email" auth row pointing at it with a null credential, and deletes the bare email key, so the "register:" key survives. A failing insert rolls both tables back |
| Accounts.UserAuthsServiceImpl.RegisterWrites | src/main/java/com/telechat/service/impl/UserAuthsServiceImpl.java:83-105 | the two inserts and the key deletion, all or nothing |
| Accounts.UserAuthsServiceImpl.LoginCheck | src/main/java/com/telechat/service/impl/UserAuthsServiceImpl.java:120-143 | in order: the type, the "login:" code, the auth row (NOT_EXIST), the user row (NOT_EXIST), then a frozen status 0 (NOT_ALLOWED) |
| Accounts.UserAuthsServiceImpl.Login | src/main/java/com/telechat/service/impl/UserAuthsServiceImpl.java:120-159 | a failed check changes nothing. Success records the login time on that user only, and deletes exactly the "login:" key when a token is issued |
| Accounts.UserAuthsServiceImpl.LoginWrites | src/main/java/com/telechat/service/impl/UserAuthsServiceImpl.java:147-153 | login time on that row only, then the token, then the code key's deletion |
| Accounts.UserAuthsServiceImpl.ResetCheck | src/main/java/com/telechat/service/impl/UserAuthsServiceImpl.java:167-184 | the type, then the code under "resetPassword:"+email, then the auth row of that email |
| Accounts.UserAuthsServiceImpl.ResetPassword | src/main/java/com/telechat/service/impl/UserAuthsServiceImpl.java:167-191 | a failed check changes nothing. Success stores the given password verbatim on that auth row only and deletes the bare email key |
| Accounts.UserController.SendRefusal | src/main/java/com/telechat/controller/user/UserController.java:56-104 | an unknown type is NOT_EXIST. A TTL above 240 s is VERIFY_CODE_EXIST with a wait of TTL − 240. A non-"email" type is an error. Register needs an unknown email; login and findPassword need a known one |
| Accounts.UserController.SendVerifyCode | src/main/java/com/telechat/controller/user/UserController.java:56-107 | any refusal stores nothing, and a failing mail stores nothing. Otherwise the code is stored under prefix+":"+identifier for 5 minutes, after the mail is sent |
| Accounts.ResendBlockedForAMinute | src/main/java/com/telechat/controller/user/UserController.java:74-101 | with a 300 s TTL and the 240 s threshold a resend is refused exactly within 60 s of the last send, and the wait shown is what is left of that minute |
| Accounts.ResetKeyNeverWritten | src/main/java/com/telechat/controller/user/UserController.java:66-72 | no verify-code key ever equals a "resetPassword:" key |
| Accounts.BareKeyIsNotACodeKey | src/main/java/com/telechat/service/impl/UserAuthsServiceImpl.java:105 | the bare identifier deleted by register and resetPassword is never the code's key |
| Accounts.ResetCodeNeverAccepted | src/main/java/com/telechat/service/impl/UserAuthsServiceImpl.java:172-184 | a mailed findPassword code is rejected by `resetPassword` as a wrong code |
| Accounts.ResendWithinAMinuteRefused | src/main/java/com/telechat/controller/user/UserController.java:74-78 | a second request within a minute is refused with the remaining wait |
| Accounts.SignUpLeavesCodeLive | src/main/java/com/telechat/service/impl/UserAuthsServiceImpl.java:105 | after a successful sign-up the register code is still stored |
| Accounts.LogInWithMailedCode | src/main/java/com/telechat/service/impl/UserAuthsServiceImpl.java:120-159 | a code mailed for login logs a registered user in and records the time |
| Security.GetJwtFromRequest | src/main/java/com/telechat/security/JwtAuthenticationFilter.java:71-80 | null for a null header; a token exactly when the header starts with "Bearer ", and then "Bearer " + token is the header |
| Security.BearerHeaderRoundTrip | src/main/java/com/telechat/security/JwtAuthenticationFilter.java:75-77 | "Bearer " + t yields t |
| Security.SchemeIsCaseAndSpaceSensitive | src/main/java/com/telechat/security/JwtAuthenticationFilter.java:75-79 | "bearer " never yields a token; "Bearer" without its space only when the token itself starts with a space |
| Security.BearerTokenDetermined | src/main/java/com/telechat/security/JwtAuthenticationFilter.java:71-80 | the token is determined by the header |
| Security.AuthenticatedUser | src/main/java/com/telechat/security/JwtAuthenticationFilter.java:51-62 | a user is authenticated exactly when a bearer token was extracted and validated, and it is the token's user |
| Security.FilterChain.DoFilter | src/main/java/com/telechat/security/JwtAuthenticationFilter.java:68 | the chain is entered once more |
| Security.SecurityContext.constructor | src/main/java/com/telechat/security/JwtAuthenticationFilter.java:44-69 | a request starts unauthenticated |
| Security.DoFilterInternal | src/main/java/com/telechat/security/JwtAuthenticationFilter.java:44-69 | the authentication is set only for an authenticated user, with that user as principal, and the chain always continues exactly once |
| Security.AnonymousRequestPassesThrough | src/main/java/com/telechat/security/JwtAuthenticationFilter.java:64-68 | a request without a header passes the chain unauthenticated |
| WebSocket.Of | src/main/java/com/telechat/pojo/dto/ws/WsMessage.java:47-54 | the envelope's type string reads back to the given type and is lower snake case; messageId, senderId and data are copied; timestamp is the build time |
| WebSocket.EnvelopeTypeIdentifies | src/main/java/com/telechat/pojo/dto/ws/WsMessage.java:47-54 | envelopes of different types differ |
| WebSocket.Path | src/main/java/com/telechat/websocket/TelechatWebSocketHandler.java:86-101 | `path` yields the field of an object node, else the missing node |
| WebSocket.AsText | src/main/java/com/telechat/websocket/TelechatWebSocketHandler.java:60 | `asText` of a text node is its text, of a number its decimal rendering, and of a missing node or a container "" |
| WebSocket.ParseLong | src/main/java/com/telechat/websocket/TelechatWebSocketHandler.java:90 | text with an optional sign and digits parses to a value in the long range; a digit string parses exactly when its value is at most Long.MAX_VALUE, and then to that value |
| WebSocket.AsLong | src/main/java/com/telechat/websocket/TelechatWebSocketHandler.java:90 | `asLong` is always a long: a number wraps to 64 bits, parsable text reads its value and other text 0, and a missing, null or container node reads as 0 |
| WebSocket.ReceiverIdReadsBack | src/main/java/com/telechat/websocket/TelechatWebSocketHandler.java:86-101 | `asLong` reads back a receiver id up to Long.MAX_VALUE given as a number or as its decimal text |
| WebSocket.OutOfRangeReceiverIds | src/main/java/com/telechat/websocket/TelechatWebSocketHandler.java:90 | beyond Long.MAX_VALUE the decimal text of an id reads as 0, while the number 2^64 + 1 wraps to 1 |
| WebSocket.UserIdOf | src/main/java/com/telechat/websocket/TelechatWebSocketHandler.java:144-147 | a session's user id is its "userId" attribute when that is a long |
| WebSocket.WebSocketSession.Close | src/main/java/com/telechat/websocket/TelechatWebSocketHandler.java:134-137 | a closed session is no longer open |
| WebSocket.TelechatWebSocketHandler.SendMsg | src/main/java/com/telechat/websocket/TelechatWebSocketHandler.java:107-124 | an absent or closed receiver is a silent no-op. A failing write evicts the receiver and writes nothing. Otherwise the message is appended to that session alone |
| WebSocket.TelechatWebSocketHandler.AfterConnectionEstablished | src/main/java/com/telechat/websocket/TelechatWebSocketHandler.java:31-47 | a session with a user id replaces that user's entry and gets a SYSTEM greeting from sender 0; a session without one changes nothing |
| WebSocket.TelechatWebSocketHandler.RemoveSession | src/main/java/com/telechat/websocket/TelechatWebSocketHandler.java:149-154 | removes the user's entry, whichever session it holds |
| WebSocket.TelechatWebSocketHandler.AfterConnectionClosed | src/main/java/com/telechat/websocket/TelechatWebSocketHandler.java:134-137 | a close evicts the session's user id |
| WebSocket.TelechatWebSocketHandler.HandleTransportError | src/main/java/com/telechat/websocket/TelechatWebSocketHandler.java:128-131 | a transport error evicts the session's user id |
| WebSocket.TelechatWebSocketHandler.HandleTypingMessage | src/main/java/com/telechat/websocket/TelechatWebSocketHandler.java:86-101 | without a data node the registry and the would-be receiver's outbox are unchanged, so nothing is sent. Otherwise a TYPING envelope from the sender with null data goes to `data.receiverId` (0 when absent) |
| WebSocket.TelechatWebSocketHandler.HandleMessage | src/main/java/com/telechat/websocket/TelechatWebSocketHandler.java:50-81 | frames without a user, pongs, non-text frames and other types change neither the registry nor any outbox the call may touch. A typing frame is relayed. An unparsable payload is answered with an ERROR envelope to the sender |
| WebSocket.Response | src/main/java/com/telechat/websocket/TelechatWebSocketHandler.java:50-81 | a reply exists only for a text frame from a user. A parse failure answers the user. A typing reply carries the session's user as sender, whatever the payload claims |
| WebSocket.FirstParam | src/main/java/com/telechat/websocket/TelechatHandshakeInterceptor.java:35 | the first value of a query parameter |
| WebSocket.AdmittedUser | src/main/java/com/telechat/websocket/TelechatHandshakeInterceptor.java:35-45 | a handshake is admitted exactly when the first token is present and valid, as the token's user |
| WebSocket.OnlyFirstTokenCounts | src/main/java/com/telechat/websocket/TelechatHandshakeInterceptor.java:35 | later "token" values never change the outcome |
| WebSocket.BeforeHandshake | src/main/java/com/telechat/websocket/TelechatHandshakeInterceptor.java:25-46 | true exactly for an admitted user, and then only "userId" is written; a refusal leaves the attributes unchanged |
| WebSocket.MessageService.SendContactApplyNotification | src/main/java/com/telechat/websocket/MessageService.java:25-42 | a CONTACT_APPLY envelope with the apply id, the sender and the notification goes to the receiver alone; a null notification is swallowed and leaves the registry and the receiver's outbox unchanged |
| WebSocket.StaleCloseEvictsReconnectedSession | src/main/java/com/telechat/websocket/TelechatWebSocketHandler.java:149-154 | after a reconnect, the old session's close evicts the user although the new session is open |
| WebSocket.HandshakeThenConnect | src/main/java/com/telechat/websocket/TelechatHandshakeInterceptor.java:37-45 | a connection is registered exactly for an admitted handshake, under the token's user |
| WebSocket.TypingRelayedWithSessionSender | src/main/java/com/telechat/websocket/TelechatWebSocketHandler.java:86-101 | a typing frame reaches the receiver with the real sender, not the one claimed in the payload |

## Left out

- Storage and clocks.
  - MySQL, Redis, Redisson and OSS are in-memory maps.
  - Times are integer parameters (`now`), and the Snowflake clock is a sequence of readings.
  - Redis keys are typed namespaces (user info, contact lists, inboxes, strings) rather than prefixed strings. Distinct prefixes do not collide, and the verify-code keys keep their full strings.
- A storage exception is modelled as a `fault` index naming the write that throws.
  - `login` and `resetPassword` are modelled without storage faults.
- Randomness is a parameter:
  - the username draws of `register`;
  - the six-digit code;
  - the TTL jitter of `getUserInfo`;
  - the UUID of an upload.
- Concurrency is left out: `synchronized`, `ConcurrentHashMap`, thread-locals and the multithreaded SnowflakeIdTest harness. Calls are sequential; threads appear only as lock owners.
- FrequencyLocking.LockTable.TryLock: lease timing, the watchdog and waiting are not modelled. A waiting `tryLock` succeeds only through the `releasedInTime` flag, and a lease runs out only through `LeaseExpires`.
- ContactApplies.ContactApplyServiceImpl.Acquire: models only the fail-fast configuration used by both annotations (waitTime 0), so the waiting path is not reached from the services.
- FrequencyLocking.ParseSpelKey: SpEL evaluation is a library. The evaluated value is a parameter, and the two annotations' expressions are related to their keys by `LockKeysParsed`.
- Jackson is abstract: `readTree` is a parameter that may fail.
  - `asText` is modelled for every node kind.
  - Serialisation failures in `sendMsg` count as a failing write.
- WebSocket.AsLong: the model parses text only as an optional sign followed by digits, as `Long.parseLong` does. Out-of-range text reads as 0 and numbers wrap to 64 bits, as in Jackson.
  - Jackson first trims the text and, for any other text, falls back to `parseDouble`. So " 7", "7.0" and "1e3" read as their value there and as 0 in the model.
  - A typing frame whose `receiverId` is such text is relayed to user 0 in the model but to that user in the source.
  - `JsonNode` has no floating-point node: a numeric `receiverId` of 7.9 (7 in Jackson) cannot be written in the model.
- The JWT token provider is a pair of total functions (validate, user id).
  - `getUsernameFromToken` is not part of this model.
  - The request details attached to the authentication are not part of this model.
  - The token issued by `login` is a parameter that may be absent.
- The mail sender is a `mailFails` flag. The OSS client's put, delete and URI parsing are flags and parameters.
- Oss.AliOssUtil.Delete: the source catches only `OSSException`, so a `ClientException` escapes `delete` unconverted. The model has one `deleteOk` flag and reports every failed delete with the delete code. Through `deleteByUrl` both kinds end as "文件URL格式错误", as `DeleteByUrlOutcome` states.
- WebSocket message ids are parameters: the generator injected into the handler is not called in the model.
- Contacts.ContactServiceImpl.Delete: the branch taken when no transaction synchronisation is active evicts the cache at once. The after-commit hook reaches the same final state, so one outcome is stated for both.
- Users.UserServiceImpl.UpdateUserInfo: the user-info cache is not evicted, because the source does not evict it; the model keeps that staleness.
- Abstract constants: `EMPTY_DATA`, `USER_CONTACT_APPLIES_DURATION`, `TOO_BUSY_CODE` and the default of `ContactApply.isRead` on insert (`INSERTED_IS_READ`).
  - The code uses `RedisConstant.EMPTY_DATA`, `RedisConstant.USER_CONTACT_APPLIES_DURATION` and `ExceptionConstant.TOO_BUSY_CODE`. Neither RedisConstant.java nor ExceptionConstant.java as shipped defines them, so the model leaves them abstract.
  - `USER_INFO_DURATION` and `USER_CONTACTS_INFO_DURATION` are 30, as RedisConstant.java:13 and :17 set them.
  - Database defaults such as `createdTime` on insert are modelled as the call's `now`.
  - The two members `handleApply` inserts leave `role` and `lastReadMessageId` null, so the column defaults apply. The model writes them as `None`.
- ContactApply has no `isRead` field in its entity class, yet `ContactApplyDao` reads and writes `ContactApply::getIsRead`. As shipped, the DAO does not compile against its entity. The model adds the field, which is what the DAO evidently expects.
- Snowflake.Wrap64: 64-bit wrap-around is modelled. `IdFieldsRoundTrip` and `IdsIncrease` are proved inside the 41-bit epoch window, where no wrap occurs.
- Query.SortDescCorrect: the order among applies with equal createdTime is whatever the sort gives. The database's tie order is unspecified, so no particular tie order is claimed.
- Contacts.ContactVOOf: the service sets `bio` on ContactVO. The model keeps that field, although the VO file in the repository has no `bio`.
- Conversation avatar and last-message fields are not written by the modelled flows and are not modelled.
- `getUserInfoCacheMapByIds` takes a sequence of ids, where the source takes a list.
- `addContactApply` pushes no notification. `MessageService` is modelled on its own, because the service never calls it.
- Accounts.UserController.SendVerifyCode: a null `type` or `identifyType` makes the `switch` throw a NullPointerException. The model's DTO fields are not nullable, so that path is not modelled.
- Controllers other than `UserController.sendVerifyCode`, the global exception mapping and the Spring configuration classes are not part of this model.
