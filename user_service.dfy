/**
 * `UserServiceImpl`: profile reads and updates. The `User` passed in is the
 * entity the controller loaded for the logged-in user; the service sets
 * fields on it and writes it back with `updateById`, which skips the
 * entity's null columns. The methods return the entity as they leave it.
 */
module Users {
  import opened Wrappers
  import opened Failures
  import opened Entities
  import opened Query
  import opened Dao
  import opened Text
  import opened Oss

  const DEFAULT_AVATAR: string := "https://nabelese-telechat.oss-cn-hangzhou.aliyuncs.com/1828.png_300.png"

  /** The profile form; `gender` is validated as non-null. */
  datatype UserInfoDTO = UserInfoDTO(nickname: Option<string>, gender: int, bio: Option<string>)

  /** The three setters `updateUserInfo` calls: nickname, gender and bio come from the form. */
  function WithInfo(user: User, dto: UserInfoDTO): (r: User)
    ensures r.nickname == dto.nickname && r.gender == dto.gender && r.bio == dto.bio
    ensures r.id == user.id && r.username == user.username && r.avatar == user.avatar && r.status == user.status
    ensures r.createTime == user.createTime && r.updateTime == user.updateTime && r.lastLoginTime == user.lastLoginTime
  {
    user.(nickname := dto.nickname, gender := dto.gender, bio := dto.bio)
  }

  /** `uploadAvatar` deletes the previous file only when there is one and it is not the shared default. */
  predicate RemovesOldAvatar(user: User) {
    user.avatar.Some? && user.avatar.value != DEFAULT_AVATAR
  }

  /** The outcome of the old-avatar deletion step (no call is an immediate success). */
  function OldAvatarDeletion(user: User, oldPath: Option<string>, deleteOk: bool): (r: Result<(), Failure>)
    ensures !RemovesOldAvatar(user) ==> r == Ok(())
    ensures RemovesOldAvatar(user) ==> r == AliOssUtil.DeleteByUrlOutcome(user.avatar, oldPath, deleteOk)
  {
    if RemovesOldAvatar(user) then AliOssUtil.DeleteByUrlOutcome(user.avatar, oldPath, deleteOk) else Ok(())
  }

  /** The object names the deletion step removes from the bucket. */
  function RemovedObjects(user: User, oldPath: Option<string>, deleteOk: bool): (r: set<string>)
    ensures r != {} <==> RemovesOldAvatar(user) && OldAvatarDeletion(user, oldPath, deleteOk).Ok?
    ensures r != {} ==> r == {StripLeadingSlash(oldPath.value)}
  {
    if RemovesOldAvatar(user) && OldAvatarDeletion(user, oldPath, deleteOk).Ok? then {StripLeadingSlash(oldPath.value)} else {}
  }

  class UserServiceImpl {
    const userDao: UserDao
    const aliOssUtil: AliOssUtil

    constructor (userDao: UserDao, aliOssUtil: AliOssUtil)
      ensures this.userDao == userDao && this.aliOssUtil == aliOssUtil
    {
      this.userDao := userDao;
      this.aliOssUtil := aliOssUtil;
    }

    /** `getUserById`: the row with that id, or null. */
    function GetUserById(id: int): (r: Option<User>)
      reads userDao
      ensures r.Some? ==> r.value in userDao.rows && r.value.id == id
      ensures r.None? <==> forall u :: u in userDao.rows ==> u.id != id
    {
      userDao.SelectById(id)
    }

    /**
     * `getUserIdByUsername`: null exactly when no user has the name, else
     * that user's id; `selectOne` throws when the name is not unique.
     */
    function GetUserIdByUsername(username: string): (r: Result<Option<int>, Failure>)
      reads userDao
      ensures r == Ok(None) <==> forall u :: u in userDao.rows ==> u.username != Some(username)
      ensures r.Ok? && r.value.Some? ==>
        exists u :: u in userDao.rows && u.username == Some(username) && u.id == r.value.value
      ensures r.Ok? && r.value.Some? ==>
        forall u :: u in userDao.rows && u.username == Some(username) ==> u.id == r.value.value
      ensures r.Err? ==> r.error == TooManyResults
    {
      match userDao.SelectByUsername(username)
      case NoRow => Ok(None)
      case TooMany => Err(TooManyResults)
      case OneRow(u) =>
        assert forall v :: v in userDao.rows && v.username == Some(username) ==> v in Filter(userDao.rows, (w: User) => w.username == Some(username));
        Ok(Some(u.id))
    }

    /** `updateUserInfo`: sets the three profile fields on the entity and writes it back. */
    method UpdateUserInfo(user: User, dto: UserInfoDTO) returns (updated: User)
      requires userDao.Valid()
      modifies userDao`rows
      ensures userDao.Valid()
      ensures updated == WithInfo(user, dto)
      ensures userDao.rows == UpdateWhere(old(userDao.rows), (u: User) => u.id == user.id, (u: User) => PatchUser(u, updated))
    {
      updated := user.(nickname := dto.nickname, gender := dto.gender, bio := dto.bio);
      userDao.UpdateById(updated);
    }

    /**
     * `uploadAvatar`: first deletes the old avatar file (`oldPath` is the
     * path `java.net.URI` finds in its URL, `deleteOk` whether OSS accepts
     * the delete), then uploads the new file (`uuid`, `putOk` as for
     * `uploadFile`); on success the entity's avatar becomes the new URL,
     * the row is written back, and the URL is returned. A failure of
     * either step propagates and the row is not written.
     */
    method UploadAvatar(user: User, file: MultipartFile, uuid: string, putOk: bool, oldPath: Option<string>, deleteOk: bool)
      returns (r: Result<string, Failure>, updated: User)
      requires userDao.Valid()
      modifies userDao`rows, aliOssUtil`objects
      ensures userDao.Valid()
      ensures OldAvatarDeletion(user, oldPath, deleteOk).Err? ==>
        r == Err(OldAvatarDeletion(user, oldPath, deleteOk).error) && aliOssUtil.objects == old(aliOssUtil.objects)
      ensures OldAvatarDeletion(user, oldPath, deleteOk).Ok? ==> r == aliOssUtil.UploadFileOutcome(file, uuid)
      ensures r.Err? ==> updated == user && userDao.rows == old(userDao.rows)
      ensures r.Ok? ==> updated == user.(avatar := Some(r.value))
      ensures r.Ok? ==> userDao.rows == UpdateWhere(old(userDao.rows), (u: User) => u.id == user.id, (u: User) => PatchUser(u, updated))
      ensures OldAvatarDeletion(user, oldPath, deleteOk).Ok? && r.Ok? && putOk ==>
        aliOssUtil.objects == (old(aliOssUtil.objects) - RemovedObjects(user, oldPath, deleteOk))[ObjectName(uuid, file.originalFilename.value) := file.bytes.value]
      ensures OldAvatarDeletion(user, oldPath, deleteOk).Ok? && !(r.Ok? && putOk) ==>
        aliOssUtil.objects == old(aliOssUtil.objects) - RemovedObjects(user, oldPath, deleteOk)
    {
      updated := user;
      if user.avatar.Some? && user.avatar.value != DEFAULT_AVATAR {
        var d := aliOssUtil.DeleteByUrl(user.avatar, oldPath, deleteOk);
        if d.Err? {
          return Err(d.error), updated;
        }
      }
      r := aliOssUtil.UploadFile(file, uuid, putOk);
      if r.Err? {
        return;
      }
      updated := user.(avatar := Some(r.value));
      userDao.UpdateById(updated);
    }
  }

  /**
   * Updating the profile of the entity just loaded from its row changes
   * exactly that row's nickname (unless the form leaves it null), gender
   * and bio (unless null), and no other row.
   */
  lemma {:induction false} UpdateUserInfoOnLoadedRow(rows: seq<User>, nextId: int, row: User, dto: UserInfoDTO)
    requires UserRowsValid(rows, nextId) && row in rows
    ensures var after := UpdateWhere(rows, (u: User) => u.id == row.id, (u: User) => PatchUser(u, WithInfo(row, dto)));
      forall i :: 0 <= i < |rows| ==>
        after[i] == if rows[i] == row
          then row.(nickname := SetIfPresent(dto.nickname, row.nickname), gender := dto.gender, bio := SetIfPresent(dto.bio, row.bio))
          else rows[i]
  {
    forall i | 0 <= i < |rows|
      ensures rows[i].id == row.id <==> rows[i] == row
    {
      if rows[i].id == row.id {
        UserIdsUnique(rows, nextId, rows[i], row);
      }
    }
  }

  /**
   * A successful avatar upload for the entity just loaded from its row
   * changes exactly that row's avatar, to the returned URL.
   */
  lemma {:induction false} UploadAvatarOnLoadedRow(rows: seq<User>, nextId: int, row: User, url: string)
    requires UserRowsValid(rows, nextId) && row in rows
    ensures var after := UpdateWhere(rows, (u: User) => u.id == row.id, (u: User) => PatchUser(u, row.(avatar := Some(url))));
      forall i :: 0 <= i < |rows| ==> after[i] == if rows[i] == row then row.(avatar := Some(url)) else rows[i]
  {
    forall i | 0 <= i < |rows|
      ensures rows[i].id == row.id <==> rows[i] == row
    {
      if rows[i].id == row.id {
        UserIdsUnique(rows, nextId, rows[i], row);
      }
    }
  }

  /**
   * The old file is deleted before the new one is uploaded: when the
   * upload then fails, the row still names the old avatar but its file is
   * gone from the bucket.
   */
  method FailedUploadLosesOldAvatar(endpoint: string, bucketName: string, maxSize: int, row: User, oldName: string, file: MultipartFile, uuid: string)
    returns (r: Result<string, Failure>, rowAvatar: Option<string>, oldFileKept: bool)
    requires row.id == 1 && RemovesOldAvatar(row) && StartsWith(row.avatar.value, "http")
    requires file.size > maxSize
    ensures r == Err(FileError(FILE_EXCEEDED_MAX_SIZE_CODE, FILE_EXCEEDED_MAX_SIZE_MSG))
    ensures rowAvatar == row.avatar && !oldFileKept
  {
    var userDao := new UserDao();
    var _ := userDao.Insert(row);
    var oss := new AliOssUtil(endpoint, bucketName, maxSize);
    oss.objects := map[oldName := []];
    var service := new UserServiceImpl(userDao, oss);
    var updated;
    r, updated := service.UploadAvatar(row, file, uuid, true, Some("/" + oldName), true);
    assert StripLeadingSlash("/" + oldName) == oldName by {
      assert StartsWith("/" + oldName, "/");
    }
    assert userDao.rows == [row];
    rowAvatar := userDao.rows[0].avatar;
    oldFileKept := oldName in oss.objects;
  }
}
