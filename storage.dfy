/** File storage: the backend chosen from `STORAGE_TYPE`, the upload options handlers build,
    the storage error's text, and the object names, paths and URLs the S3 and disk backends
    produce. The S3 `put` and the file write are given functions. */
module Storage {
  import opened Wrappers
  import opened Text

  type Bytes = seq<bv8>

  // ---------------------------------------------------------------------------
  // Backend selection
  // ---------------------------------------------------------------------------

  datatype StorageType = Disk | S3

  /** `get_storage_type`: "s3" selects S3; "disk", any other value and an unset variable
      select the disk. */
  function GetStorageType(variable: Option<string>): (t: StorageType)
    ensures t == S3 <==> variable == Some("s3")
  {
    match variable
    case Some(v) => if v == "s3" then S3 else Disk
    case None => Disk
  }

  /** A bucket as the S3 client knows it. */
  datatype Bucket = Bucket(name: string, region: string)

  datatype Backend = S3Backend(bucket: Bucket) | DiskBackend(path: string, serverUrl: string)

  /** `StorageProvider::new`: the backend of the selected kind. The bucket settings and the
      disk path are the values read from the environment and the constants. */
  function NewProvider(variable: Option<string>, bucket: Bucket, path: string, serverUrl: string): (b: Backend)
    ensures b.S3Backend? <==> GetStorageType(variable) == S3
    ensures b.S3Backend? ==> b.bucket == bucket
    ensures b.DiskBackend? ==> b.path == path && b.serverUrl == serverUrl
  {
    match GetStorageType(variable)
    case S3 => S3Backend(bucket)
    case Disk => DiskBackend(path, serverUrl)
  }

  // ---------------------------------------------------------------------------
  // Upload options
  // ---------------------------------------------------------------------------

  datatype UploadOptions = UploadOptions(fileName: string, contentType: Option<string>)

  /** `UploadOptions::new`: named after the current time in milliseconds, no content type. */
  function NewUploadOptions(millis: int): (o: UploadOptions)
    ensures o.contentType.None?
    ensures millis >= 0 ==> AllDigits(o.fileName)
  {
    UploadOptions(IntDecimal(millis), None)
  }

  /** The default name reads back as the timestamp it was made from. */
  lemma NewUploadOptionsNameParses(millis: int)
    requires 0 <= millis < U64_LIMIT
    ensures ParseU64(NewUploadOptions(millis).fileName) == Some(millis)
  {
    ParseU64OfDecimal(millis);
  }

  /** `set_file_name` replaces the name and nothing else. */
  function SetFileName(o: UploadOptions, fileName: string): (r: UploadOptions)
    ensures r.fileName == fileName && r.contentType == o.contentType
  {
    o.(fileName := fileName)
  }

  /** `set_content_type` sets the content type and nothing else. */
  function SetContentType(o: UploadOptions, contentType: string): (r: UploadOptions)
    ensures r.contentType == Some(contentType) && r.fileName == o.fileName
  {
    o.(contentType := Some(contentType))
  }

  /** The two setters touch different fields, so their order does not matter, and once both
      are applied the starting timestamp no longer shows. */
  lemma SettersCommute(o: UploadOptions, fileName: string, contentType: string, millis: int)
    ensures SetContentType(SetFileName(o, fileName), contentType) == SetFileName(SetContentType(o, contentType), fileName)
    ensures SetContentType(SetFileName(NewUploadOptions(millis), fileName), contentType) == UploadOptions(fileName, Some(contentType))
  {
  }

  // ---------------------------------------------------------------------------
  // Errors
  // ---------------------------------------------------------------------------

  datatype StorageError = S3Error(text: string) | IoError(text: string) | InvalidUploadOptions(text: string)

  const S3_PREFIX: string := "[Storage Error] S3: "
  const IO_PREFIX: string := "[Storage Error] Io: "
  const OPTIONS_PREFIX: string := "[Storage Error] Invalid Upload Options: "
  const CONTENT_TYPE_REQUIRED: string := "Content type is required"

  /** `Display`: a prefix naming the kind, then the cause's own text. */
  function Display(e: StorageError): (s: string)
    ensures |e.text| <= |s| && s[|s| - |e.text|..] == e.text
  {
    match e
    case S3Error(t) => S3_PREFIX + t
    case IoError(t) => IO_PREFIX + t
    case InvalidUploadOptions(t) => OPTIONS_PREFIX + t
  }

  /** Distinct errors display differently: the prefix gives the kind back, the rest the cause. */
  lemma DisplayInjective(a: StorageError, b: StorageError)
    requires Display(a) == Display(b)
    ensures a == b
  {
    var s := Display(a);
    assert S3_PREFIX[16] == 'S' && IO_PREFIX[16] == 'I' && OPTIONS_PREFIX[16] == 'I';
    assert IO_PREFIX[17] == 'o' && OPTIONS_PREFIX[17] == 'n';
    assert s[16] == (if a.S3Error? then 'S' else 'I');
    assert s[16] == (if b.S3Error? then 'S' else 'I');
    if a.IoError? || a.InvalidUploadOptions? {
      assert s[17] == (if a.IoError? then 'o' else 'n');
      assert s[17] == (if b.IoError? then 'o' else 'n');
    }
    var p := |Display(a)| - |a.text|;
    assert a.text == s[p..];
  }

  // ---------------------------------------------------------------------------
  // Object names, keys and URLs
  // ---------------------------------------------------------------------------

  /** `"{name}_{stamp}.{extension}"`, the name split at its first '.'; a name without a dot
      has the empty extension. */
  function ObjectName(fileName: string, stamp: int): string {
    var (name, extension) := SplitAtFirst(fileName, '.');
    name + "_" + IntDecimal(stamp) + "." + extension
  }

  /** The S3 key `"uploads/{name}_{stamp}.{extension}"`. */
  function S3Key(fileName: string, stamp: int): string {
    "uploads/" + ObjectName(fileName, stamp)
  }

  /** `"https://{bucket}.s3.{region}.amazonaws.com/{key}"`. */
  function ObjectUrl(bucket: Bucket, key: string): string {
    "https://" + bucket.name + ".s3." + bucket.region + ".amazonaws.com/" + key
  }

  lemma NoDotInStamp(stamp: int)
    ensures '.' !in IntDecimal(stamp)
  {
    var d := Decimal(if stamp < 0 then -stamp else stamp);
    assert '.' !in d by {
      forall i | 0 <= i < |d|
        ensures d[i] != '.'
      {
        assert IsDigit(d[i]);
      }
    }
    assert IntDecimal(stamp) == (if stamp < 0 then "-" + d else d);
  }

  /** Splitting at the first '.' finds the dot that follows a dot-free prefix. */
  lemma SplitAfterStem(stem: string, rest: string)
    requires '.' !in stem
    ensures SplitAtFirst(stem + "." + rest, '.') == (stem, rest)
  {
    var o := stem + "." + rest;
    assert o[|stem|] == '.';
    var r := SplitAtFirst(o, '.');
    assert r.0 + "." + r.1 == o;
    assert |r.0| == |stem|;
    assert r.0 == o[..|stem|] == stem;
    assert r.1 == o[|stem| + 1..] == rest;
  }

  /** The object name splits back, at its first '.', into the file's stem tagged with the
      stamp and the file's own extension, later dots included. */
  lemma ObjectNameSplits(fileName: string, stamp: int)
    ensures var (name, extension) := SplitAtFirst(fileName, '.');
            SplitAtFirst(ObjectName(fileName, stamp), '.') == (name + "_" + IntDecimal(stamp), extension)
  {
    var (name, extension) := SplitAtFirst(fileName, '.');
    NoDotInStamp(stamp);
    SplitAfterStem(name + "_" + IntDecimal(stamp), extension);
  }

  /** A name without a dot gets the empty extension, so its object name ends in '.'. */
  lemma NoDotEndsInDot(fileName: string, stamp: int)
    requires '.' !in fileName
    ensures ObjectName(fileName, stamp) == fileName + "_" + IntDecimal(stamp) + "."
  {
  }

  lemma IntDecimalInjective(a: int, b: int)
    requires IntDecimal(a) == IntDecimal(b)
    ensures a == b
  {
    if a >= 0 && b >= 0 {
      DecimalInjective(a, b);
    } else if a < 0 && b < 0 {
      assert Decimal(-a) == IntDecimal(a)[1..];
      assert Decimal(-b) == IntDecimal(b)[1..];
      DecimalInjective(-a, -b);
    }
  }

  /** Uploading the same file at two different instants gives two different objects. */
  lemma ObjectNameStampInjective(fileName: string, s1: int, s2: int)
    requires ObjectName(fileName, s1) == ObjectName(fileName, s2)
    ensures s1 == s2
  {
    var name := SplitAtFirst(fileName, '.').0;
    ObjectNameSplits(fileName, s1);
    ObjectNameSplits(fileName, s2);
    var a, b := name + "_" + IntDecimal(s1), name + "_" + IntDecimal(s2);
    assert a == b;
    assert IntDecimal(s1) == a[|name| + 1..];
    assert IntDecimal(s2) == b[|name| + 1..];
    IntDecimalInjective(s1, s2);
  }

  // ---------------------------------------------------------------------------
  // The two backends
  // ---------------------------------------------------------------------------

  /** The S3 backend's `upload_file`: refuses options without a content type before any
      upload; otherwise puts the data under the key built from the file name and the time,
      and returns the object's URL. `put` is the bucket's streaming put. */
  function S3Upload(bucket: Bucket, data: Bytes, options: UploadOptions, millis: int,
                    put: (string, string, Bytes) -> Result<(), string>): (r: Result<string, StorageError>)
    ensures options.contentType.None? ==> r == Failure(InvalidUploadOptions(CONTENT_TYPE_REQUIRED))
    ensures options.contentType.Some? ==>
              var key := S3Key(options.fileName, millis);
              match put(key, options.contentType.value, data)
              case Failure(e) => r == Failure(S3Error(e))
              case Success(_) => r == Success(ObjectUrl(bucket, key))
  {
    match options.contentType
    case None => Failure(InvalidUploadOptions(CONTENT_TYPE_REQUIRED))
    case Some(contentType) =>
      var key := S3Key(options.fileName, millis);
      match put(key, contentType, data)
      case Failure(e) => Failure(S3Error(e))
      case Success(_) => Success(ObjectUrl(bucket, key))
  }

  /** `get_full_path`: `"{root}/{file}"`. */
  function FullPath(root: string, fileName: string): string {
    root + "/" + fileName
  }

  /** The disk backend's `upload_file`: writes the data under the storage directory with the
      same stamped name as S3, and returns `"{server}/{full path}"`. The content type is not
      looked at. `write` creates and fills the file. */
  function DiskUpload(root: string, serverUrl: string, data: Bytes, options: UploadOptions, millis: int,
                      write: (string, Bytes) -> Result<(), string>): (r: Result<string, StorageError>)
    ensures var path := FullPath(root, ObjectName(options.fileName, millis));
            match write(path, data)
            case Failure(e) => r == Failure(IoError(e))
            case Success(_) => r == Success(serverUrl + "/" + path)
  {
    var path := FullPath(root, ObjectName(options.fileName, millis));
    match write(path, data)
    case Failure(e) => Failure(IoError(e))
    case Success(_) => Success(serverUrl + "/" + path)
  }

  /** The `Storage` trait: the provider's backend does the upload. */
  function Upload(backend: Backend, data: Bytes, options: UploadOptions, millis: int,
                  put: (string, string, Bytes) -> Result<(), string>,
                  write: (string, Bytes) -> Result<(), string>): (r: Result<string, StorageError>)
    ensures backend.S3Backend? ==> r == S3Upload(backend.bucket, data, options, millis, put)
    ensures backend.DiskBackend? ==> r == DiskUpload(backend.path, backend.serverUrl, data, options, millis, write)
  {
    match backend
    case S3Backend(bucket) => S3Upload(bucket, data, options, millis, put)
    case DiskBackend(path, serverUrl) => DiskUpload(path, serverUrl, data, options, millis, write)
  }

  /** Only S3 can refuse options, and only for a missing content type; the disk backend
      stores a file whatever its content type. */
  lemma OptionsRefusedOnlyByS3(backend: Backend, data: Bytes, options: UploadOptions, millis: int,
                               put: (string, string, Bytes) -> Result<(), string>,
                               write: (string, Bytes) -> Result<(), string>)
    ensures var r := Upload(backend, data, options, millis, put, write);
            r.Failure? && r.error.InvalidUploadOptions? <==> backend.S3Backend? && options.contentType.None?
  {
  }

  /** A successful S3 upload's URL ends in its key, a disk upload's in its full path, and
      both keep the uploaded file's extension after the first '.' of the object name. */
  lemma UrlEndsInObjectName(backend: Backend, data: Bytes, options: UploadOptions, millis: int,
                            put: (string, string, Bytes) -> Result<(), string>,
                            write: (string, Bytes) -> Result<(), string>)
    requires Upload(backend, data, options, millis, put, write).Success?
    ensures var url := Upload(backend, data, options, millis, put, write).value;
            var o := ObjectName(options.fileName, millis);
            |o| <= |url| && url[|url| - |o|..] == o &&
            SplitAtFirst(o, '.').1 == SplitAtFirst(options.fileName, '.').1
  {
    ObjectNameSplits(options.fileName, millis);
    var url := Upload(backend, data, options, millis, put, write).value;
    var o := ObjectName(options.fileName, millis);
    if backend.S3Backend? {
      var prefix := "https://" + backend.bucket.name + ".s3." + backend.bucket.region + ".amazonaws.com/" + "uploads/";
      assert url == prefix + o;
    } else {
      var prefix := backend.serverUrl + "/" + backend.path + "/";
      assert url == prefix + o;
    }
  }
}
