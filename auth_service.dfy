/**
 * E-mail accounts: `UserAuthsServiceImpl` (does an e-mail exist, register,
 * log in, reset the password) and `UserController.sendVerifyCode`, which
 * mails a six-digit code and keeps it in Redis under "<purpose>:<e-mail>"
 * for five minutes.
 */
module Accounts {
  import opened Wrappers
  import opened Failures
  import opened Entities
  import opened Query
  import opened Dao
  import opened Redis
  import opened Text
  import opened Users

  const EMAIL_EXIST_MSG: string := "邮箱已存在"
  const VERIFY_CODE_ERROR_MSG: string := "验证码错误"
  const REGISTER_TYPE_ERROR_MSG: string := "注册类型错误"
  const LOGIN_TYPE_ERROR_MSG: string := "登录类型错误"
  const RESET_PASSWORD_TYPE_ERROR_MSG: string := "重置密码类型错误"
  const USER_NOT_REGISTERED_MSG: string := "用户不存在，请先注册"
  const USER_INFO_BROKEN_MSG: string := "用户信息异常"
  const ACCOUNT_FROZEN_MSG: string := "该账号暂时被冻结，无法登录"
  const UNKNOWN_CODE_TYPE_MSG: string := "不存在的验证码类型"
  const EMAIL_NOT_EXIST_MSG: string := "邮箱不存在"
  const IDENTIFY_TYPE_ERROR_MSG: string := "识别类型错误"
  const DEFAULT_BIO: string := "该用户还没有介绍自己哦"
  const USER_ROLE: string := "USER"

  const RESET_PASSWORD_PREFIX: string := "resetPassword:"

  /** A code lives five minutes; a new one may be sent once less than four minutes remain. */
  const CODE_TTL_SECONDS: int := 5 * 60
  const RESEND_THRESHOLD_SECONDS: int := 240

  datatype RegisterDTO = RegisterDTO(identifier: string, identifyType: string, verifyCode: Option<string>)
  datatype LoginDTO = LoginDTO(identifier: string, identifyType: string, verifyCode: Option<string>)
  datatype ResetPasswordDTO = ResetPasswordDTO(identifier: string, identifyType: string, verifyCode: Option<string>, password: Option<string>)
  datatype VerifyCodeDTO = VerifyCodeDTO(codeType: int, identifier: string, identifyType: string)

  /** The controller's `Result`: success, or an error code and message returned (not thrown). */
  datatype ApiResult = Success | Error(code: int, msg: string)

  /** The stored code matches the one presented: it exists and is equal (`verifyCode.equals(dto.getVerifyCode())`). */
  predicate CodeMatches(stored: Option<string>, presented: Option<string>) {
    stored.Some? && presented == stored
  }

  /** The username `"user_" + (int) (Math.random() * 1000000000)` for one random draw. */
  function UsernameOf(draw: int): string {
    "user_" + IntText(draw)
  }

  /** `userDao.selectByUsername` over the given rows. */
  function UsernameLookup(rows: seq<User>, username: string): One<User> {
    SelectOne(rows, (u: User) => u.username == Some(username))
  }

  /** Some draw gives a username that is not held by exactly one user, so the retry loop stops. */
  predicate UsernameLoopStops(rows: seq<User>, draws: seq<int>) {
    exists i :: 0 <= i < |draws| && !UsernameLookup(rows, UsernameOf(draws[i])).OneRow?
  }

  /**
   * The username `register` settles on: the first draw whose name no user
   * holds; if a lookup finds several holders first, `selectOne` throws.
   */
  function PickUsername(rows: seq<User>, draws: seq<int>): (r: Result<string, Failure>)
    requires UsernameLoopStops(rows, draws)
    ensures r.Ok? ==> forall u :: u in rows ==> u.username != Some(r.value)
    ensures r.Ok? ==> exists i :: 0 <= i < |draws| && r.value == UsernameOf(draws[i])
    ensures r.Err? ==> r.error == TooManyResults
    decreases |draws|
  {
    var name := UsernameOf(draws[0]);
    match UsernameLookup(rows, name)
    case NoRow => Ok(name)
    case TooMany => Err(TooManyResults)
    case OneRow(_) =>
      assert UsernameLoopStops(rows, draws[1..]) by {
        var i :| 0 <= i < |draws| && !UsernameLookup(rows, UsernameOf(draws[i])).OneRow?;
        assert i != 0 && draws[1..][i - 1] == draws[i];
      }
      var r := PickUsername(rows, draws[1..]);
      assert r.Ok? ==> exists i :: 0 <= i < |draws| && r.value == UsernameOf(draws[i]) by {
        if r.Ok? {
          var j :| 0 <= j < |draws[1..]| && r.value == UsernameOf(draws[1..][j]);
          assert r.value == UsernameOf(draws[j + 1]);
        }
      }
      r
  }

  /** The row `register` inserts for a new e-mail account (its id is assigned on insert). */
  function NewUser(username: string, email: string, now: int): (u: User)
    ensures u.username == Some(username) && u.nickname == Some(email)
    ensures u.avatar == Some(DEFAULT_AVATAR) && u.status == 1 && u.gender == 0
  {
    User(0, Some(username), Some(email), Some(DEFAULT_AVATAR), 0, Some(DEFAULT_BIO), 1, Some(now), Some(now), Some(now))
  }

  /** The key a code for `purpose` is kept under. */
  function CodeKey(purpose: string, identifier: string): (k: string)
    ensures |k| == |purpose| + 1 + |identifier|
    ensures k[..|purpose|] == purpose && k[|purpose|] == ':' && k[|purpose| + 1..] == identifier
  {
    purpose + ":" + identifier
  }

  /** `sendVerifyCode`'s purposes: 1 register, 2 login, 3 findPassword. */
  function CodePurpose(codeType: int): (r: Option<string>)
    ensures r.Some? <==> codeType in {1, 2, 3}
  {
    if codeType == 1 then Some("register")
    else if codeType == 2 then Some("login")
    else if codeType == 3 then Some("findPassword")
    else None
  }

  /** The user rows after `login` stamped user `userId`'s login time: that column of that row, nothing else. */
  predicate LoginRecorded(before: seq<User>, after: seq<User>, userId: int, now: int) {
    && |after| == |before|
    && forall i :: 0 <= i < |before| ==>
         after[i] == if before[i].id == userId then before[i].(lastLoginTime := Some(now)) else before[i]
  }

  /** The auth rows after the password of auth row `authId` was set (a null password writes nothing). */
  predicate CredentialWritten(before: seq<UserAuths>, after: seq<UserAuths>, authId: int, password: Option<string>) {
    && |after| == |before|
    && forall i :: 0 <= i < |before| ==>
         after[i] == if before[i].id == authId then before[i].(credential := SetIfPresent(password, before[i].credential)) else before[i]
  }

  class UserAuthsServiceImpl {
    const userAuthsDao: UserAuthsDao
    const userDao: UserDao
    const redisTemplate: RedisStore

    ghost predicate Valid()
      reads this, userAuthsDao, userDao
    {
      userAuthsDao.Valid() && userDao.Valid()
    }

    constructor (userAuthsDao: UserAuthsDao, userDao: UserDao, redisTemplate: RedisStore)
      ensures this.userAuthsDao == userAuthsDao && this.userDao == userDao && this.redisTemplate == redisTemplate
    {
      this.userAuthsDao := userAuthsDao;
      this.userDao := userDao;
      this.redisTemplate := redisTemplate;
    }

    /**
     * `isEmailExist`: true exactly when an "email" auth row has that
     * identifier; two or more such rows make `selectOne` throw.
     */
    function IsEmailExist(email: string): (r: Result<bool, Failure>)
      reads userAuthsDao
      ensures r.Ok? ==> (r.value <==> exists a :: a in userAuthsDao.rows && IsEmailAuth(a, email))
      ensures r.Err? <==> |Filter(userAuthsDao.rows, (a: UserAuths) => IsEmailAuth(a, email))| >= 2
      ensures r.Err? ==> r.error == TooManyResults
    {
      match userAuthsDao.SelectByEmail(email)
      case NoRow => Ok(false)
      case OneRow(_) => Ok(true)
      case TooMany => Err(TooManyResults)
    }

    /**
     * The checks `register` makes before writing, in order: the account
     * type, that the e-mail is new, the code under "register:"+e-mail, and
     * the username retry loop. `Ok` carries the chosen username.
     */
    function RegisterCheck(dto: RegisterDTO, now: int, draws: seq<int>): (r: Result<string, Failure>)
      reads userAuthsDao, userDao, redisTemplate
      requires UsernameLoopStops(userDao.rows, draws)
      ensures dto.identifyType != "email" ==> r == Err(RegisterError(REGISTER_TYPE_ERROR_CODE, REGISTER_TYPE_ERROR_MSG))
      ensures dto.identifyType == "email" && IsEmailExist(dto.identifier) == Ok(true) ==>
        r == Err(EmailError(EMAIL_EXIST_CODE, EMAIL_EXIST_MSG))
      ensures (&& dto.identifyType == "email" && IsEmailExist(dto.identifier) == Ok(false)
               && !CodeMatches(redisTemplate.GetString(CodeKey("register", dto.identifier), now), dto.verifyCode)) ==>
        r == Err(VerifyCodeError(VERIFY_CODE_ERROR_CODE, VERIFY_CODE_ERROR_MSG))
      ensures r.Ok? ==>
        && dto.identifyType == "email"
        && IsEmailExist(dto.identifier) == Ok(false)
        && CodeMatches(redisTemplate.GetString(CodeKey("register", dto.identifier), now), dto.verifyCode)
        && r == PickUsername(userDao.rows, draws)
    {
      if dto.identifyType != "email" then Err(RegisterError(REGISTER_TYPE_ERROR_CODE, REGISTER_TYPE_ERROR_MSG))
      else
        var emailExists := IsEmailExist(dto.identifier);
        if emailExists.Err? then Err(emailExists.error)
        else if emailExists.value then Err(EmailError(EMAIL_EXIST_CODE, EMAIL_EXIST_MSG))
        else if !CodeMatches(redisTemplate.GetString(CodeKey("register", dto.identifier), now), dto.verifyCode) then
          Err(VerifyCodeError(VERIFY_CODE_ERROR_CODE, VERIFY_CODE_ERROR_MSG))
        else PickUsername(userDao.rows, draws)
    }

    /** The retry loop: draws again while exactly one user holds the drawn name. */
    method GenerateUsername(draws: seq<int>) returns (r: Result<string, Failure>)
      requires UsernameLoopStops(userDao.rows, draws)
      ensures r == PickUsername(userDao.rows, draws)
    {
      var i := 0;
      var username := UsernameOf(draws[0]);
      while userDao.SelectByUsername(username).OneRow?
        invariant 0 <= i < |draws| && username == UsernameOf(draws[i])
        invariant UsernameLoopStops(userDao.rows, draws[i..])
        invariant PickUsername(userDao.rows, draws[i..]) == PickUsername(userDao.rows, draws)
        decreases |draws| - i
      {
        assert userDao.SelectByUsername(username) == UsernameLookup(userDao.rows, username);
        assert draws[i..][1..] == draws[i + 1..];
        i := i + 1;
        username := UsernameOf(draws[i]);
      }
      assert userDao.SelectByUsername(username) == UsernameLookup(userDao.rows, username);
      if userDao.SelectByUsername(username).TooMany? {
        return Err(TooManyResults);
      }
      return Ok(username);
    }

    /**
     * `register` (transactional): after the checks, inserts the user and
     * its "email" auth row with a null credential, then deletes the key
     * named by the bare e-mail. A failed insert (`fault`: the index of
     * the write that fails) rolls both tables back.
     */
    method Register(dto: RegisterDTO, now: int, draws: seq<int>, fault: Option<nat>) returns (r: Result<bool, Failure>)
      requires Valid()
      requires UsernameLoopStops(userDao.rows, draws)
      modifies userDao, userAuthsDao, redisTemplate`strings
      ensures Valid()
      ensures var check := old(RegisterCheck(dto, now, draws));
        check.Err? ==> (&& r == Err(check.error) && userDao.rows == old(userDao.rows)
                        && userAuthsDao.rows == old(userAuthsDao.rows) && redisTemplate.strings == old(redisTemplate.strings))
      ensures var check := old(RegisterCheck(dto, now, draws));
        check.Ok? && fault.Some? && fault.value < 2 ==>
          (&& r == Err(StoreFailure) && userDao.rows == old(userDao.rows)
           && userAuthsDao.rows == old(userAuthsDao.rows) && redisTemplate.strings == old(redisTemplate.strings))
      ensures var check := old(RegisterCheck(dto, now, draws));
        check.Ok? && !(fault.Some? && fault.value < 2) ==>
          && r == Ok(true)
          && userDao.rows == old(userDao.rows) + [NewUser(check.value, dto.identifier, now).(id := old(userDao.nextId))]
          && userAuthsDao.rows == old(userAuthsDao.rows)
               + [UserAuths(old(userAuthsDao.nextId), old(userDao.nextId), "email", dto.identifier, None)]
          && redisTemplate.strings == old(redisTemplate.strings) - {dto.identifier}
    {
      if dto.identifyType != "email" {
        return Err(RegisterError(REGISTER_TYPE_ERROR_CODE, REGISTER_TYPE_ERROR_MSG));
      }
      var emailExists := IsEmailExist(dto.identifier);
      if emailExists.Err? {
        return Err(emailExists.error);
      }
      if emailExists.value {
        return Err(EmailError(EMAIL_EXIST_CODE, EMAIL_EXIST_MSG));
      }
      var verifyCode := redisTemplate.GetString(CodeKey("register", dto.identifier), now);
      if !CodeMatches(verifyCode, dto.verifyCode) {
        return Err(VerifyCodeError(VERIFY_CODE_ERROR_CODE, VERIFY_CODE_ERROR_MSG));
      }
      var username := GenerateUsername(draws);
      assert username == RegisterCheck(dto, now, draws);
      if username.Err? {
        return Err(username.error);
      }
      r := RegisterWrites(username.value, dto.identifier, now, fault);
    }

    /**
     * The writes of a `register` that passed its checks: the user row, its
     * auth row, then the deletion of the bare e-mail key; a failed insert
     * rolls the tables back and skips the deletion.
     */
    method RegisterWrites(username: string, email: string, now: int, fault: Option<nat>) returns (r: Result<bool, Failure>)
      requires Valid()
      modifies userDao, userAuthsDao, redisTemplate`strings
      ensures Valid()
      ensures fault.Some? && fault.value < 2 ==>
        (&& r == Err(StoreFailure) && userDao.rows == old(userDao.rows)
         && userAuthsDao.rows == old(userAuthsDao.rows) && redisTemplate.strings == old(redisTemplate.strings))
      ensures !(fault.Some? && fault.value < 2) ==>
        && r == Ok(true)
        && userDao.rows == old(userDao.rows) + [NewUser(username, email, now).(id := old(userDao.nextId))]
        && userAuthsDao.rows == old(userAuthsDao.rows) + [UserAuths(old(userAuthsDao.nextId), old(userDao.nextId), "email", email, None)]
        && redisTemplate.strings == old(redisTemplate.strings) - {email}
    {
      if fault == Some(0) {
        return Err(StoreFailure);
      }
      var savedUsers := userDao.rows;
      var userId := userDao.Insert(NewUser(username, email, now));
      if fault == Some(1) {
        userDao.Restore(savedUsers);
        return Err(StoreFailure);
      }
      var _ := userAuthsDao.Insert(UserAuths(0, userId, "email", email, None));
      redisTemplate.DeleteString(email);
      return Ok(true);
    }

    /**
     * The checks `login` makes, in order: the account type, the code under
     * "login:"+e-mail, the auth row, the user row, and that the account is
     * not frozen (status 0). `Ok` carries the user row.
     */
    function LoginCheck(dto: LoginDTO, now: int): (r: Result<User, Failure>)
      reads userAuthsDao, userDao, redisTemplate
      ensures dto.identifyType != "email" ==> r == Err(RegisterError(REGISTER_TYPE_ERROR_CODE, LOGIN_TYPE_ERROR_MSG))
      ensures dto.identifyType == "email" && !CodeMatches(redisTemplate.GetString(CodeKey("login", dto.identifier), now), dto.verifyCode) ==>
        r == Err(VerifyCodeError(VERIFY_CODE_ERROR_CODE, VERIFY_CODE_ERROR_MSG))
      ensures dto.identifyType == "email" && CodeMatches(redisTemplate.GetString(CodeKey("login", dto.identifier), now), dto.verifyCode) ==>
        (r == Err(EmailError(NOT_EXIST_CODE, USER_NOT_REGISTERED_MSG)) <==> userAuthsDao.SelectByEmail(dto.identifier).NoRow?)
      ensures r == Err(EmailError(NOT_EXIST_CODE, USER_INFO_BROKEN_MSG)) <==>
        && dto.identifyType == "email"
        && CodeMatches(redisTemplate.GetString(CodeKey("login", dto.identifier), now), dto.verifyCode)
        && userAuthsDao.SelectByEmail(dto.identifier).OneRow?
        && userDao.SelectById(userAuthsDao.SelectByEmail(dto.identifier).row.userId).None?
      ensures r == Err(EmailError(NOT_ALLOWED_CODE, ACCOUNT_FROZEN_MSG)) ==>
        userAuthsDao.SelectByEmail(dto.identifier).OneRow? && userDao.SelectById(userAuthsDao.SelectByEmail(dto.identifier).row.userId).Some?
        && userDao.SelectById(userAuthsDao.SelectByEmail(dto.identifier).row.userId).value.status == 0
      ensures r.Ok? ==>
        && dto.identifyType == "email"
        && CodeMatches(redisTemplate.GetString(CodeKey("login", dto.identifier), now), dto.verifyCode)
        && userAuthsDao.SelectByEmail(dto.identifier).OneRow?
        && r.value in userDao.rows
        && r.value.id == userAuthsDao.SelectByEmail(dto.identifier).row.userId
        && r.value.status != 0
    {
      if dto.identifyType != "email" then Err(RegisterError(REGISTER_TYPE_ERROR_CODE, LOGIN_TYPE_ERROR_MSG))
      else if !CodeMatches(redisTemplate.GetString(CodeKey("login", dto.identifier), now), dto.verifyCode) then
        Err(VerifyCodeError(VERIFY_CODE_ERROR_CODE, VERIFY_CODE_ERROR_MSG))
      else match userAuthsDao.SelectByEmail(dto.identifier)
        case NoRow => Err(EmailError(NOT_EXIST_CODE, USER_NOT_REGISTERED_MSG))
        case TooMany => Err(TooManyResults)
        case OneRow(auths) =>
          var user := userDao.SelectById(auths.userId);
          if user.None? then Err(EmailError(NOT_EXIST_CODE, USER_INFO_BROKEN_MSG))
          else if user.value.status == 0 then Err(EmailError(NOT_ALLOWED_CODE, ACCOUNT_FROZEN_MSG))
          else Ok(user.value)
    }

    /**
     * `login`: after the checks, records the login time on the user row,
     * asks the token provider for a token (`generateToken`, `None` when it
     * throws) and, once it has one, deletes exactly the "login:" code key.
     */
    method Login(dto: LoginDTO, now: int, generateToken: (int, Option<string>, string) -> Option<string>)
      returns (r: Result<string, Failure>)
      requires Valid()
      modifies userDao`rows, redisTemplate`strings
      ensures Valid()
      ensures var check := old(LoginCheck(dto, now));
        check.Err? ==> r == Err(check.error) && userDao.rows == old(userDao.rows) && redisTemplate.strings == old(redisTemplate.strings)
      ensures var check := old(LoginCheck(dto, now));
        check.Ok? ==>
          && LoginRecorded(old(userDao.rows), userDao.rows, check.value.id, now)
          && var token := generateToken(check.value.id, check.value.nickname, USER_ROLE);
             (token.None? ==> r == Err(TokenFailure) && redisTemplate.strings == old(redisTemplate.strings))
             && (token.Some? ==> r == Ok(token.value) && redisTemplate.strings == old(redisTemplate.strings) - {CodeKey("login", dto.identifier)})
    {
      if dto.identifyType != "email" {
        return Err(RegisterError(REGISTER_TYPE_ERROR_CODE, LOGIN_TYPE_ERROR_MSG));
      }
      var redisVerifyCodeKey := CodeKey("login", dto.identifier);
      var verifyCode := redisTemplate.GetString(redisVerifyCodeKey, now);
      if !CodeMatches(verifyCode, dto.verifyCode) {
        return Err(VerifyCodeError(VERIFY_CODE_ERROR_CODE, VERIFY_CODE_ERROR_MSG));
      }
      var userAuths := userAuthsDao.SelectByEmail(dto.identifier);
      if userAuths.NoRow? {
        return Err(EmailError(NOT_EXIST_CODE, USER_NOT_REGISTERED_MSG));
      }
      if userAuths.TooMany? {
        return Err(TooManyResults);
      }
      var userTmp := userDao.SelectById(userAuths.row.userId);
      if userTmp.None? {
        return Err(EmailError(NOT_EXIST_CODE, USER_INFO_BROKEN_MSG));
      }
      if userTmp.value.status == 0 {
        return Err(EmailError(NOT_ALLOWED_CODE, ACCOUNT_FROZEN_MSG));
      }
      assert LoginCheck(dto, now) == Ok(userTmp.value);
      r := LoginWrites(userTmp.value, now, redisVerifyCodeKey, generateToken);
    }

    /**
     * The writes of a `login` that passed its checks, for the user row
     * `user`: stamp the login time, get a token, then delete the code key.
     */
    method LoginWrites(user: User, now: int, redisVerifyCodeKey: string, generateToken: (int, Option<string>, string) -> Option<string>)
      returns (r: Result<string, Failure>)
      requires Valid() && user in userDao.rows
      modifies userDao`rows, redisTemplate`strings
      ensures Valid()
      ensures LoginRecorded(old(userDao.rows), userDao.rows, user.id, now)
      ensures var token := generateToken(user.id, user.nickname, USER_ROLE);
        && (token.None? ==> r == Err(TokenFailure) && redisTemplate.strings == old(redisTemplate.strings))
        && (token.Some? ==> r == Ok(token.value) && redisTemplate.strings == old(redisTemplate.strings) - {redisVerifyCodeKey})
    {
      var stamped := user.(lastLoginTime := Some(now));
      forall v | v in userDao.rows && v.id == stamped.id
        ensures PatchUser(v, stamped) == v.(lastLoginTime := Some(now))
      {
        UserIdsUnique(userDao.rows, userDao.nextId, v, user);
      }
      userDao.UpdateById(stamped);
      var token := generateToken(stamped.id, stamped.nickname, USER_ROLE);
      if token.None? {
        return Err(TokenFailure);
      }
      redisTemplate.DeleteString(redisVerifyCodeKey);
      return Ok(token.value);
    }

    /**
     * The checks `resetPassword` makes, in order: the account type, the
     * code under "resetPassword:"+e-mail, and the auth row, which `Ok`
     * carries.
     */
    function ResetCheck(dto: ResetPasswordDTO, now: int): (r: Result<UserAuths, Failure>)
      reads userAuthsDao, redisTemplate
      ensures dto.identifyType != "email" ==> r == Err(RegisterError(RESET_PASSWORD_TYPE_ERROR_CODE, RESET_PASSWORD_TYPE_ERROR_MSG))
      ensures dto.identifyType == "email" && !CodeMatches(redisTemplate.GetString(RESET_PASSWORD_PREFIX + dto.identifier, now), dto.verifyCode) ==>
        r == Err(VerifyCodeError(VERIFY_CODE_ERROR_CODE, VERIFY_CODE_ERROR_MSG))
      ensures r.Ok? ==>
        && dto.identifyType == "email"
        && CodeMatches(redisTemplate.GetString(RESET_PASSWORD_PREFIX + dto.identifier, now), dto.verifyCode)
        && r.value in userAuthsDao.rows && IsEmailAuth(r.value, dto.identifier)
        && userAuthsDao.SelectByEmail(dto.identifier) == OneRow(r.value)
    {
      if dto.identifyType != "email" then Err(RegisterError(RESET_PASSWORD_TYPE_ERROR_CODE, RESET_PASSWORD_TYPE_ERROR_MSG))
      else if !CodeMatches(redisTemplate.GetString(RESET_PASSWORD_PREFIX + dto.identifier, now), dto.verifyCode) then
        Err(VerifyCodeError(VERIFY_CODE_ERROR_CODE, VERIFY_CODE_ERROR_MSG))
      else match userAuthsDao.SelectByEmail(dto.identifier)
        case NoRow => Err(EmailError(NOT_EXIST_CODE, USER_NOT_REGISTERED_MSG))
        case TooMany => Err(TooManyResults)
        case OneRow(auths) => Ok(auths)
    }

    /**
     * `resetPassword`: after the checks, stores the new password as given
     * (a null one writes nothing) on that auth row alone, then deletes the
     * key named by the bare e-mail.
     */
    method ResetPassword(dto: ResetPasswordDTO, now: int) returns (r: Result<bool, Failure>)
      requires Valid()
      modifies userAuthsDao`rows, redisTemplate`strings
      ensures Valid()
      ensures var check := old(ResetCheck(dto, now));
        check.Err? ==>
          r == Err(check.error) && userAuthsDao.rows == old(userAuthsDao.rows) && redisTemplate.strings == old(redisTemplate.strings)
      ensures var check := old(ResetCheck(dto, now));
        check.Ok? ==>
          && r == Ok(true)
          && CredentialWritten(old(userAuthsDao.rows), userAuthsDao.rows, check.value.id, dto.password)
          && redisTemplate.strings == old(redisTemplate.strings) - {dto.identifier}
    {
      if dto.identifyType != "email" {
        return Err(RegisterError(RESET_PASSWORD_TYPE_ERROR_CODE, RESET_PASSWORD_TYPE_ERROR_MSG));
      }
      var verifyCode := redisTemplate.GetString(RESET_PASSWORD_PREFIX + dto.identifier, now);
      if !CodeMatches(verifyCode, dto.verifyCode) {
        return Err(VerifyCodeError(VERIFY_CODE_ERROR_CODE, VERIFY_CODE_ERROR_MSG));
      }
      var userAuths := userAuthsDao.SelectByEmail(dto.identifier);
      if userAuths.NoRow? {
        return Err(EmailError(NOT_EXIST_CODE, USER_NOT_REGISTERED_MSG));
      }
      if userAuths.TooMany? {
        return Err(TooManyResults);
      }
      var updated := userAuths.row.(credential := dto.password);
      forall a | a in userAuthsDao.rows && a.id == updated.id
        ensures PatchAuths(a, updated) == a.(credential := SetIfPresent(dto.password, a.credential))
      {
        AuthIdsUnique(userAuthsDao.rows, userAuthsDao.nextId, a, userAuths.row);
      }
      userAuthsDao.UpdateById(updated);
      redisTemplate.DeleteString(dto.identifier);
      return Ok(true);
    }
  }

  /** "请<seconds>秒后重试": how long to wait before asking for another code. */
  function RetryMsg(seconds: int): string {
    "请" + IntText(seconds) + "秒后重试"
  }

  class UserController {
    const userAuthsService: UserAuthsServiceImpl
    const redisTemplate: RedisStore

    constructor (userAuthsService: UserAuthsServiceImpl, redisTemplate: RedisStore)
      ensures this.userAuthsService == userAuthsService && this.redisTemplate == redisTemplate
    {
      this.userAuthsService := userAuthsService;
      this.redisTemplate := redisTemplate;
    }

    /**
     * Whether `sendVerifyCode` refuses before mailing, checked in order: an
     * unknown code type; a code for the key that still has more than 240
     * seconds to live; an identity type other than "email"; an e-mail that
     * is already registered (for register) or not registered (for login
     * and findPassword). `Ok(None)`: the code is sent.
     */
    function SendRefusal(dto: VerifyCodeDTO, now: int): (r: Result<Option<ApiResult>, Failure>)
      reads redisTemplate, userAuthsService, userAuthsService.userAuthsDao
      ensures CodePurpose(dto.codeType).None? ==> r == Ok(Some(Error(NOT_EXIST_CODE, UNKNOWN_CODE_TYPE_MSG)))
      ensures CodePurpose(dto.codeType).Some? ==>
        var ttl := TimeToLive(redisTemplate.strings, CodeKey(CodePurpose(dto.codeType).value, dto.identifier), now);
        && (ttl > RESEND_THRESHOLD_SECONDS ==> r == Ok(Some(Error(VERIFY_CODE_EXIST_CODE, RetryMsg(ttl - RESEND_THRESHOLD_SECONDS)))))
        && (ttl <= RESEND_THRESHOLD_SECONDS && dto.identifyType != "email" ==> r == Ok(Some(Error(NOT_EXIST_CODE, IDENTIFY_TYPE_ERROR_MSG))))
      ensures r.Ok? && r.value.None? ==>
        && CodePurpose(dto.codeType).Some?
        && TimeToLive(redisTemplate.strings, CodeKey(CodePurpose(dto.codeType).value, dto.identifier), now) <= RESEND_THRESHOLD_SECONDS
        && dto.identifyType == "email"
        && userAuthsService.IsEmailExist(dto.identifier) == Ok(dto.codeType != 1)
      ensures r.Err? ==> userAuthsService.IsEmailExist(dto.identifier).Err? && r.error == TooManyResults
    {
      var purpose := CodePurpose(dto.codeType);
      if purpose.None? then Ok(Some(Error(NOT_EXIST_CODE, UNKNOWN_CODE_TYPE_MSG)))
      else
        var ttl := TimeToLive(redisTemplate.strings, CodeKey(purpose.value, dto.identifier), now);
        if ttl > RESEND_THRESHOLD_SECONDS then Ok(Some(Error(VERIFY_CODE_EXIST_CODE, RetryMsg(ttl - RESEND_THRESHOLD_SECONDS))))
        else if dto.identifyType != "email" then Ok(Some(Error(NOT_EXIST_CODE, IDENTIFY_TYPE_ERROR_MSG)))
        else
          var emailExists := userAuthsService.IsEmailExist(dto.identifier);
          if emailExists.Err? then Err(emailExists.error)
          else if purpose.value == "register" && emailExists.value then Ok(Some(Error(EMAIL_EXIST_CODE, EMAIL_EXIST_MSG)))
          else if purpose.value != "register" && !emailExists.value then Ok(Some(Error(NOT_EXIST_CODE, EMAIL_NOT_EXIST_MSG)))
          else Ok(None)
    }

    /**
     * `sendVerifyCode`: unless refused, mails the code (`code`, the random
     * six-digit number; `mailFails`: the mailer throws, and nothing is
     * stored) and then stores it as text under "<purpose>:<e-mail>" for
     * five minutes.
     */
    method SendVerifyCode(dto: VerifyCodeDTO, now: int, code: nat, mailFails: bool) returns (r: Result<ApiResult, Failure>)
      requires 100000 <= code <= 999999
      modifies redisTemplate`strings
      ensures var refusal := old(SendRefusal(dto, now));
        refusal.Err? ==> r == Err(refusal.error) && redisTemplate.strings == old(redisTemplate.strings)
      ensures var refusal := old(SendRefusal(dto, now));
        refusal.Ok? && refusal.value.Some? ==> r == Ok(refusal.value.value) && redisTemplate.strings == old(redisTemplate.strings)
      ensures var refusal := old(SendRefusal(dto, now));
        refusal == Ok(None) && mailFails ==> r == Err(MailFailure) && redisTemplate.strings == old(redisTemplate.strings)
      ensures var refusal := old(SendRefusal(dto, now));
        refusal == Ok(None) && !mailFails ==>
          && r == Ok(Success)
          && redisTemplate.strings == old(redisTemplate.strings)[
               CodeKey(CodePurpose(dto.codeType).value, dto.identifier) := Expiring(NatText(code), CODE_TTL_SECONDS, now)]
    {
      var purpose := CodePurpose(dto.codeType);
      if purpose.None? {
        return Ok(Error(NOT_EXIST_CODE, UNKNOWN_CODE_TYPE_MSG));
      }
      var redisVerifyCodeKey := CodeKey(purpose.value, dto.identifier);
      var expire := TimeToLive(redisTemplate.strings, redisVerifyCodeKey, now);
      if expire > RESEND_THRESHOLD_SECONDS {
        return Ok(Error(VERIFY_CODE_EXIST_CODE, RetryMsg(expire - RESEND_THRESHOLD_SECONDS)));
      }
      if dto.identifyType != "email" {
        return Ok(Error(NOT_EXIST_CODE, IDENTIFY_TYPE_ERROR_MSG));
      }
      if purpose.value == "register" {
        var emailExists := userAuthsService.IsEmailExist(dto.identifier);
        if emailExists.Err? {
          return Err(emailExists.error);
        }
        if emailExists.value {
          return Ok(Error(EMAIL_EXIST_CODE, EMAIL_EXIST_MSG));
        }
      }
      if purpose.value == "login" || purpose.value == "findPassword" {
        var emailExists := userAuthsService.IsEmailExist(dto.identifier);
        if emailExists.Err? {
          return Err(emailExists.error);
        }
        if !emailExists.value {
          return Ok(Error(NOT_EXIST_CODE, EMAIL_NOT_EXIST_MSG));
        }
      }
      if mailFails {
        return Err(MailFailure);
      }
      redisTemplate.SetString(redisVerifyCodeKey, NatText(code), CODE_TTL_SECONDS, now);
      return Ok(Success);
    }
  }

  /**
   * A code stored at `sentAt` blocks the next send for its key for 60
   * seconds: until then the remaining life exceeds 240 seconds, and the
   * reply names the seconds left to wait.
   */
  lemma {:induction false} ResendBlockedForAMinute(strings: map<string, Entry<string>>, key: string, code: string, sentAt: int, now: int)
    requires key in strings && strings[key] == Expiring(code, CODE_TTL_SECONDS, sentAt)
    requires sentAt <= now
    ensures TimeToLive(strings, key, now) > RESEND_THRESHOLD_SECONDS <==> now - sentAt < 60
    ensures now - sentAt < 60 ==> TimeToLive(strings, key, now) - RESEND_THRESHOLD_SECONDS == 60 - (now - sentAt)
  {
    if now - sentAt < 60 {
      assert Live(strings[key], now);
    }
  }

  /** Codes are never stored where `resetPassword` looks: no purpose key is a "resetPassword:" key. */
  lemma ResetKeyNeverWritten(codeType: int, identifier: string, other: string)
    requires CodePurpose(codeType).Some?
    ensures CodeKey(CodePurpose(codeType).value, identifier) != RESET_PASSWORD_PREFIX + other
  {
    var key := CodeKey(CodePurpose(codeType).value, identifier);
    var reset := RESET_PASSWORD_PREFIX + other;
    assert reset[0] == 'r' && reset[2] == 's';
    if codeType == 1 {
      assert key[2] == 'g';
    } else if codeType == 2 {
      assert key[0] == 'l';
    } else {
      assert key[0] == 'f';
    }
  }

  /** `register` and `resetPassword` delete the bare e-mail, which is never the key their code was read from. */
  lemma BareKeyIsNotACodeKey(identifier: string, purpose: string)
    ensures identifier != CodeKey(purpose, identifier)
    ensures identifier != RESET_PASSWORD_PREFIX + identifier
  {
    assert |CodeKey(purpose, identifier)| > |identifier|;
  }

  /**
   * A registered user asks for a password-reset code (type 3) and presents
   * it: the reset is refused as a wrong code, because the code was stored
   * under "findPassword:" and `resetPassword` reads "resetPassword:".
   */
  method ResetCodeNeverAccepted(email: string, now: int, code: nat, password: string)
    returns (sent: Result<ApiResult, Failure>, reset: Result<bool, Failure>)
    requires 100000 <= code <= 999999
    ensures sent == Ok(Success)
    ensures reset == Err(VerifyCodeError(VERIFY_CODE_ERROR_CODE, VERIFY_CODE_ERROR_MSG))
  {
    var userAuthsDao := new UserAuthsDao();
    var userDao := new UserDao();
    var redis := new RedisStore();
    var _ := userAuthsDao.Insert(UserAuths(0, 1, "email", email, None));
    assert Filter(userAuthsDao.rows, (a: UserAuths) => IsEmailAuth(a, email)) == userAuthsDao.rows;
    var service := new UserAuthsServiceImpl(userAuthsDao, userDao, redis);
    var controller := new UserController(service, redis);
    ghost var before := redis.strings;
    sent := controller.SendVerifyCode(VerifyCodeDTO(3, email, "email"), now, code, false);
    ResetKeyNeverWritten(3, email, email);
    assert RESET_PASSWORD_PREFIX + email !in redis.strings by {
      assert redis.strings.Keys == before.Keys + {CodeKey("findPassword", email)};
    }
    var dto := ResetPasswordDTO(email, "email", Some(NatText(code)), Some(password));
    assert service.ResetCheck(dto, now) == Err(VerifyCodeError(VERIFY_CODE_ERROR_CODE, VERIFY_CODE_ERROR_MSG));
    reset := service.ResetPassword(dto, now);
  }

  /** A second register code asked for within a minute of the first is refused, naming the seconds left. */
  method ResendWithinAMinuteRefused(email: string, sentAt: int, now: int, first: nat, second: nat)
    returns (r1: Result<ApiResult, Failure>, r2: Result<ApiResult, Failure>)
    requires sentAt <= now < sentAt + 60
    requires 100000 <= first <= 999999 && 100000 <= second <= 999999
    ensures r1 == Ok(Success)
    ensures r2 == Ok(Error(VERIFY_CODE_EXIST_CODE, RetryMsg(60 - (now - sentAt))))
  {
    var userAuthsDao := new UserAuthsDao();
    var userDao := new UserDao();
    var redis := new RedisStore();
    var service := new UserAuthsServiceImpl(userAuthsDao, userDao, redis);
    var controller := new UserController(service, redis);
    r1 := controller.SendVerifyCode(VerifyCodeDTO(1, email, "email"), sentAt, first, false);
    ResendBlockedForAMinute(redis.strings, CodeKey("register", email), NatText(first), sentAt, now);
    r2 := controller.SendVerifyCode(VerifyCodeDTO(1, email, "email"), now, second, false);
  }

  /**
   * Sign-up with a mailed code succeeds, and because `register` deletes
   * the bare e-mail key, the register code is still live afterwards.
   */
  method SignUpLeavesCodeLive(email: string, now: int, registerCode: nat, draw: int)
    returns (registered: Result<bool, Failure>, users: nat, registerCodeLeft: Option<string>)
    requires 100000 <= registerCode <= 999999
    ensures registered == Ok(true) && users == 1
    ensures registerCodeLeft == Some(NatText(registerCode))
  {
    var userAuthsDao := new UserAuthsDao();
    var userDao := new UserDao();
    var redis := new RedisStore();
    var service := new UserAuthsServiceImpl(userAuthsDao, userDao, redis);
    var controller := new UserController(service, redis);
    var sent := controller.SendVerifyCode(VerifyCodeDTO(1, email, "email"), now, registerCode, false);
    var draws := [draw];
    assert !UsernameLookup(userDao.rows, UsernameOf(draws[0])).OneRow?;
    registered := service.Register(RegisterDTO(email, "email", Some(NatText(registerCode))), now, draws, None);
    BareKeyIsNotACodeKey(email, "register");
    users := |userDao.rows|;
    registerCodeLeft := redis.GetString(CodeKey("register", email), now);
  }

  /** A registered, active user logs in with a mailed code and gets the provider's token. */
  method LogInWithMailedCode(email: string, now: int, loginCode: nat, token: string)
    returns (sent: Result<ApiResult, Failure>, loggedIn: Result<string, Failure>, lastLogin: Option<int>)
    requires 100000 <= loginCode <= 999999
    ensures sent == Ok(Success)
    ensures loggedIn == Ok(token)
    ensures lastLogin == Some(now)
  {
    var userAuthsDao := new UserAuthsDao();
    var userDao := new UserDao();
    var redis := new RedisStore();
    var userId := userDao.Insert(NewUser("user_1", email, now - 1));
    var _ := userAuthsDao.Insert(UserAuths(0, userId, "email", email, None));
    assert Filter(userAuthsDao.rows, (a: UserAuths) => IsEmailAuth(a, email)) == userAuthsDao.rows;
    var service := new UserAuthsServiceImpl(userAuthsDao, userDao, redis);
    var controller := new UserController(service, redis);
    var user := userDao.rows[0];
    sent := controller.SendVerifyCode(VerifyCodeDTO(2, email, "email"), now, loginCode, false);
    assert redis.GetString(CodeKey("login", email), now) == Some(NatText(loginCode));
    assert userDao.SelectById(userId) == Some(user);
    var dto := LoginDTO(email, "email", Some(NatText(loginCode)));
    assert service.LoginCheck(dto, now) == Ok(user);
    loggedIn := service.Login(dto, now, (id, nickname, role) => Some(token));
    lastLogin := userDao.rows[0].lastLoginTime;
  }
}
