/**
 * `AliOssUtil`: avatar files in an Aliyun OSS bucket. The bucket is the
 * map from object names to their bytes. Whether a call to the OSS client
 * succeeds, the random UUID, and the path `java.net.URI` extracts from a
 * URL are inputs of the operations.
 */
module Oss {
  import opened Wrappers
  import opened Failures
  import opened Text

  const FILE_UPLOAD_EXCEPTION_MSG: string := "文件上传失败"
  /** `FileDeleteExceptionMsg` reads "文件上传失败" too. */
  const FILE_DELETE_EXCEPTION_MSG: string := "文件上传失败"
  const INVALID_URL_MSG: string := "无效的文件URL"
  const MALFORMED_URL_MSG: string := "文件URL格式错误"

  /**
   * A multipart upload: its size, its original filename (null when the
   * client sent none) and its bytes (`None`: reading them throws an
   * IOException).
   */
  datatype MultipartFile = MultipartFile(size: int, originalFilename: Option<string>, bytes: Option<seq<bv8>>)

  /** `filename.substring(filename.lastIndexOf("."))`, for a name that has a '.'. */
  function Extension(filename: string): (ext: string)
    requires '.' in filename
    ensures |ext| >= 1 && ext[0] == '.' && '.' !in ext[1..]
    ensures |ext| <= |filename| && filename[|filename| - |ext|..] == ext
  {
    filename[LastIndexOf(filename, '.')..]
  }

  /** The object name: a random UUID followed by the filename's extension. */
  function ObjectName(uuid: string, filename: string): (name: string)
    requires '.' in filename
    ensures |name| == |uuid| + |Extension(filename)|
    ensures name[..|uuid|] == uuid && name[|uuid|..] == Extension(filename)
  {
    uuid + Extension(filename)
  }

  /** `uriPath.substring(1)` when the path starts with "/". */
  function StripLeadingSlash(path: string): (r: string)
    ensures StartsWith(path, "/") ==> "/" + r == path
    ensures !StartsWith(path, "/") ==> r == path
  {
    if StartsWith(path, "/") then path[1..] else path
  }

  class AliOssUtil {
    const endpoint: string
    const bucketName: string
    const maxAvatarSize: int
    var objects: map<string, seq<bv8>>

    constructor (endpoint: string, bucketName: string, maxAvatarSize: int)
      ensures this.endpoint == endpoint && this.bucketName == bucketName
      ensures this.maxAvatarSize == maxAvatarSize && objects == map[]
    {
      this.endpoint := endpoint;
      this.bucketName := bucketName;
      this.maxAvatarSize := maxAvatarSize;
      objects := map[];
    }

    /** The public address of an object: https://BucketName.Endpoint/ObjectName. */
    function ObjectUrl(objectName: string): (url: string)
      ensures StartsWith(url, "https://")
      ensures |url| == 8 + |bucketName| + 1 + |endpoint| + 1 + |objectName|
      ensures url[|url| - |objectName|..] == objectName && url[|url| - |objectName| - 1] == '/'
    {
      "https://" + bucketName + "." + endpoint + "/" + objectName
    }

    /**
     * What `uploadFile` returns or throws: the size check comes first; a
     * missing filename is reported as an upload failure; a filename
     * without '.' makes `substring(-1)` throw, which nothing catches; an
     * unreadable file is an upload failure; otherwise the object's URL.
     */
    function UploadFileOutcome(file: MultipartFile, uuid: string): (r: Result<string, Failure>)
      ensures file.size > maxAvatarSize ==>
        r == Err(FileError(FILE_EXCEEDED_MAX_SIZE_CODE, FILE_EXCEEDED_MAX_SIZE_MSG))
      ensures file.size <= maxAvatarSize && file.originalFilename.None? ==>
        r == Err(FileError(FILE_UPLOAD_EXCEPTION_CODE, FILE_UPLOAD_EXCEPTION_MSG))
      ensures file.size <= maxAvatarSize && file.originalFilename.Some? && '.' !in file.originalFilename.value ==>
        r == Err(IndexOutOfBounds)
      ensures file.size <= maxAvatarSize && file.originalFilename.Some? && '.' in file.originalFilename.value ==>
        if file.bytes.None? then r == Err(FileError(FILE_UPLOAD_EXCEPTION_CODE, FILE_UPLOAD_EXCEPTION_MSG))
        else r == Ok(ObjectUrl(ObjectName(uuid, file.originalFilename.value)))
    {
      if file.size > maxAvatarSize then Err(FileError(FILE_EXCEEDED_MAX_SIZE_CODE, FILE_EXCEEDED_MAX_SIZE_MSG))
      else if file.originalFilename.None? then Err(FileError(FILE_UPLOAD_EXCEPTION_CODE, FILE_UPLOAD_EXCEPTION_MSG))
      else if '.' !in file.originalFilename.value then Err(IndexOutOfBounds)
      else if file.bytes.None? then Err(FileError(FILE_UPLOAD_EXCEPTION_CODE, FILE_UPLOAD_EXCEPTION_MSG))
      else Ok(ObjectUrl(ObjectName(uuid, file.originalFilename.value)))
    }

    /**
     * `upload`: puts the object (`putOk`: the OSS client accepted it) and
     * returns its URL whether or not the put succeeded, since the client's
     * exceptions are only logged.
     */
    method Upload(bytes: seq<bv8>, objectName: string, putOk: bool) returns (url: string)
      modifies this`objects
      ensures url == ObjectUrl(objectName)
      ensures putOk ==> objects == old(objects)[objectName := bytes]
      ensures !putOk ==> objects == old(objects)
    {
      if putOk {
        objects := objects[objectName := bytes];
      }
      url := "https://" + bucketName + "." + endpoint + "/" + objectName;
    }

    /** `uploadFile`: validates the file, then uploads it under a fresh object name. */
    method UploadFile(file: MultipartFile, uuid: string, putOk: bool) returns (r: Result<string, Failure>)
      modifies this`objects
      ensures r == UploadFileOutcome(file, uuid)
      ensures r.Ok? && putOk ==>
        objects == old(objects)[ObjectName(uuid, file.originalFilename.value) := file.bytes.value]
      ensures !(r.Ok? && putOk) ==> objects == old(objects)
    {
      if file.size > maxAvatarSize {
        return Err(FileError(FILE_EXCEEDED_MAX_SIZE_CODE, FILE_EXCEEDED_MAX_SIZE_MSG));
      }
      if file.originalFilename.None? {
        return Err(FileError(FILE_UPLOAD_EXCEPTION_CODE, FILE_UPLOAD_EXCEPTION_MSG));
      }
      var filename := file.originalFilename.value;
      var dot := LastIndexOf(filename, '.');
      if dot < 0 {
        return Err(IndexOutOfBounds);
      }
      var objectName := uuid + filename[dot..];
      if file.bytes.None? {
        return Err(FileError(FILE_UPLOAD_EXCEPTION_CODE, FILE_UPLOAD_EXCEPTION_MSG));
      }
      var url := Upload(file.bytes.value, objectName, putOk);
      return Ok(url);
    }

    /** `delete`: removes the object, or fails when the OSS client rejects the request. */
    method Delete(objectName: string, deleteOk: bool) returns (r: Result<(), Failure>)
      modifies this`objects
      ensures deleteOk <==> r.Ok?
      ensures deleteOk ==> objects == old(objects) - {objectName}
      ensures !deleteOk ==> r == Err(FileError(FILE_DELETE_EXCEPTION_CODE, FILE_DELETE_EXCEPTION_MSG)) && objects == old(objects)
    {
      if !deleteOk {
        return Err(FileError(FILE_DELETE_EXCEPTION_CODE, FILE_DELETE_EXCEPTION_MSG));
      }
      objects := objects - {objectName};
      return Ok(());
    }

    /**
     * What `deleteByUrl` throws: an absent URL or one not starting with
     * "http" is invalid; otherwise every failure (a URL that does not
     * parse, a URL without a path, a failed delete) is reported as a
     * malformed URL, with the delete code.
     */
    static function DeleteByUrlOutcome(fileUrl: Option<string>, uriPath: Option<string>, deleteOk: bool): (r: Result<(), Failure>)
      ensures fileUrl.None? || !StartsWith(fileUrl.value, "http") ==>
        r == Err(FileError(FILE_DELETE_EXCEPTION_CODE, INVALID_URL_MSG))
      ensures fileUrl.Some? && StartsWith(fileUrl.value, "http") ==>
        (r.Ok? <==> uriPath.Some? && deleteOk) &&
        (r.Err? ==> r == Err(FileError(FILE_DELETE_EXCEPTION_CODE, MALFORMED_URL_MSG)))
    {
      if fileUrl.None? || !StartsWith(fileUrl.value, "http") then Err(FileError(FILE_DELETE_EXCEPTION_CODE, INVALID_URL_MSG))
      else if uriPath.None? || !deleteOk then Err(FileError(FILE_DELETE_EXCEPTION_CODE, MALFORMED_URL_MSG))
      else Ok(())
    }

    /**
     * `deleteByUrl`: `uriPath` is the path of `new URI(fileUrl)` (`None`
     * when parsing throws or the path is null); the object named by the
     * path without its leading '/' is deleted.
     */
    method DeleteByUrl(fileUrl: Option<string>, uriPath: Option<string>, deleteOk: bool) returns (r: Result<(), Failure>)
      modifies this`objects
      ensures r == DeleteByUrlOutcome(fileUrl, uriPath, deleteOk)
      ensures r.Ok? ==> objects == old(objects) - {StripLeadingSlash(uriPath.value)}
      ensures r.Err? ==> objects == old(objects)
    {
      if fileUrl.None? || !StartsWith(fileUrl.value, "http") {
        return Err(FileError(FILE_DELETE_EXCEPTION_CODE, INVALID_URL_MSG));
      }
      if uriPath.None? {
        return Err(FileError(FILE_DELETE_EXCEPTION_CODE, MALFORMED_URL_MSG));
      }
      var path := uriPath.value;
      if StartsWith(path, "/") {
        path := path[1..];
      }
      var d := Delete(path, deleteOk);
      if d.Err? {
        return Err(FileError(FILE_DELETE_EXCEPTION_CODE, MALFORMED_URL_MSG));
      }
      return Ok(());
    }
  }

  /** Different object names have different URLs in the same bucket. */
  lemma {:induction false} ObjectUrlInjective(oss: AliOssUtil, a: string, b: string)
    requires oss.ObjectUrl(a) == oss.ObjectUrl(b)
    ensures a == b
  {
    var prefix := "https://" + oss.bucketName + "." + oss.endpoint + "/";
    assert oss.ObjectUrl(a) == prefix + a && oss.ObjectUrl(b) == prefix + b;
    assert a == (prefix + a)[|prefix|..];
    assert b == (prefix + b)[|prefix|..];
  }

  /**
   * An uploaded avatar can be removed again by its URL, when `java.net.URI`
   * reports the path "/" + object name for it: a fresh bucket holds the
   * object after the upload and no longer holds it after the delete.
   */
  method UploadThenDeleteByUrl(endpoint: string, bucketName: string, maxSize: int, file: MultipartFile, uuid: string)
    returns (r: Result<string, Failure>, storedAfterUpload: bool, d: Result<(), Failure>, storedAfterDelete: bool)
    requires file.size <= maxSize && file.originalFilename.Some? && '.' in file.originalFilename.value && file.bytes.Some?
    ensures r.Ok? && StartsWith(r.value, "http")
    ensures storedAfterUpload
    ensures d == Ok(()) && !storedAfterDelete
  {
    var oss := new AliOssUtil(endpoint, bucketName, maxSize);
    var name := ObjectName(uuid, file.originalFilename.value);
    r := oss.UploadFile(file, uuid, true);
    storedAfterUpload := name in oss.objects;
    assert StartsWith(r.value, "https://");
    assert r.value[..4] == "https://"[..4];
    d := oss.DeleteByUrl(Some(r.value), Some("/" + name), true);
    assert StripLeadingSlash("/" + name) == name by {
      assert StartsWith("/" + name, "/");
    }
    storedAfterDelete := name in oss.objects;
  }
}
