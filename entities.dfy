/**
 * Error codes and messages shared by the services, and the failures a call
 * can end in: the application's own exceptions, and the library and
 * runtime exceptions the modelled code lets escape.
 */
module Failures {
  const NOT_EXIST_CODE: int := 404
  const NOT_ALLOWED_CODE: int := 403
  const ALREADY_EXIST_CODE: int := 400
  const VERIFY_CODE_EXIST_CODE: int := 400
  const EMAIL_EXIST_CODE: int := 400
  const VERIFY_CODE_ERROR_CODE: int := 500
  const REGISTER_TYPE_ERROR_CODE: int := 500
  const RESET_PASSWORD_TYPE_ERROR_CODE: int := 500
  const FILE_UPLOAD_EXCEPTION_CODE: int := 100500
  const FILE_DELETE_EXCEPTION_CODE: int := 100501
  const FILE_EXCEEDED_MAX_SIZE_CODE: int := 100502
  /** The lock guard's refusal code; its value is not part of this model. */
  const TOO_BUSY_CODE: int

  const USER_NOT_EXIST_MSG: string := "该联系人不存在"
  const NOT_ALLOWED_MSG: string := "未允许"
  const NOT_ALLOWED_SEND_APPLY_MYSELF: string := "不允许添加自己为好友"
  const CONTACT_ALREADY_EXIST_MSG: string := "该用户已是你的联系人"
  const CONTACT_NOT_EXIST_MSG: string := "联系不存在"
  const CONTACT_ALREADY_HANDLE_EXCEPTION_MSG: string := "该联系申请已处理"
  const NOT_HANDLER_MSG: string := "无权处理他人的好友申请"
  const CONVERSATION_NOT_EXIST_MSG: string := "联系人对应的会话不存在"
  const FILE_EXCEEDED_MAX_SIZE_MSG: string := "文件超出最大限制"

  datatype Failure =
    | ContactError(code: int, message: string)
    | FrequencyError(code: int, message: string)
    | EmailError(code: int, message: string)
    | VerifyCodeError(code: int, message: string)
    | RegisterError(code: int, message: string)
    | FileError(code: int, message: string)
      /** MyBatis `selectOne` found more than one row. */
    | TooManyResults
    | NullPointer
    | IndexOutOfBounds
      /** A database write failed; the surrounding transaction rolled back. */
    | StoreFailure
      /** The mail sender threw. */
    | MailFailure
      /** The token provider threw. */
    | TokenFailure
}

/**
 * Table rows, cache values and view objects. Times (`LocalDateTime`) are
 * whole seconds; a Java reference that may be null is an `Option`.
 */
module Entities {
  import opened Wrappers
  import opened Enums

  datatype User = User(
    id: int,
    username: Option<string>,
    nickname: Option<string>,
    avatar: Option<string>,
    gender: int,
    bio: Option<string>,
    status: int,
    createTime: Option<int>,
    updateTime: Option<int>,
    lastLoginTime: Option<int>)

  datatype UserAuths = UserAuths(
    id: int,
    userId: int,
    identityType: string,
    identifier: string,
    credential: Option<string>)

  datatype Contact = Contact(
    id: int,
    userId: int,
    friendId: int,
    conversationId: Option<int>,
    remark: Option<string>,
    createdTime: Option<int>)

  /** `isRead` is a column the entity class reads and writes through the query wrappers. */
  datatype ContactApply = ContactApply(
    id: int,
    userId: int,
    friendId: int,
    status: ContactApplyStatus,
    isRead: bool,
    createdTime: Option<int>)

  datatype Conversation = Conversation(
    id: int,
    ctype: ConversationType,
    title: Option<string>,
    ownerId: Option<int>,
    status: ConversationStatus,
    createdTime: Option<int>,
    updatedTime: Option<int>)

  datatype ConversationMember = ConversationMember(
    id: int,
    conversationId: int,
    userId: int,
    role: Option<string>,
    isMuted: bool,
    isDeleted: bool,
    lastReadMessageId: Option<int>,
    joinedTime: Option<int>)

  /** The cached projection of a user; `userId == -1` marks a user known not to exist. */
  datatype UserInfoCache = UserInfoCache(
    userId: Option<int>,
    username: Option<string>,
    nickname: Option<string>,
    avatar: Option<string>,
    gender: int,
    bio: Option<string>)

  /** `isNullPlaceholder`: recognises the marker by its id alone; a null `userId` is not the marker. */
  predicate IsNullPlaceholder(c: UserInfoCache): (r: bool)
    ensures r <==> c.userId == NULL_PLACEHOLDER.userId
  {
    c.userId.Some? && c.userId.value == -1
  }

  /** The marker stored when the store has no such user. */
  const NULL_PLACEHOLDER: UserInfoCache := UserInfoCache(Some(-1), None, None, None, 0, None)

  /** The six-field projection cached for a user row. */
  function UserInfoOf(u: User): (c: UserInfoCache)
    ensures c.userId == Some(u.id) && c.nickname == u.nickname && c.avatar == u.avatar
    ensures c.username == u.username && c.gender == u.gender && c.bio == u.bio
  {
    UserInfoCache(Some(u.id), u.username, u.nickname, u.avatar, u.gender, u.bio)
  }

  /** The store-miss marker is recognised; the projection of a stored row (ids from 1) never is. */
  lemma {:induction false} PlaceholderOnlyForMissingUsers(u: User)
    ensures IsNullPlaceholder(NULL_PLACEHOLDER)
    ensures u.id >= 1 ==> !IsNullPlaceholder(UserInfoOf(u))
    ensures u.id == -1 <==> IsNullPlaceholder(UserInfoOf(u))
  {
  }

  datatype ContactsCache = ContactsCache(contactId: int, friendId: int, remark: Option<string>)

  datatype ContactApplyCache = ContactApplyCache(
    contactApplyId: int,
    userId: int,
    status: string,
    createdTime: Option<int>)

  /** `ContactVO` as `ContactServiceImpl.list` builds it, including `bio`. */
  datatype ContactVO = ContactVO(
    id: int,
    userId: int,
    username: Option<string>,
    nickname: Option<string>,
    avatar: Option<string>,
    remark: Option<string>,
    bio: Option<string>)

  datatype ContactApplyVO = ContactApplyVO(
    id: int,
    userId: int,
    avatar: Option<string>,
    nickname: Option<string>,
    status: string,
    createTime: Option<int>)

  datatype ContactApplyNotification = ContactApplyNotification(
    applyId: Option<int>,
    senderId: Option<int>,
    nickname: Option<string>,
    avatar: Option<string>,
    description: Option<string>,
    createTime: Option<int>)
}
