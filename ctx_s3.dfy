/** The S3 upload of the `ctx` generation: the object key is stamped in seconds rather than
    milliseconds. */
module CtxS3 {
  import opened Wrappers
  import opened Storage

  /** `upload_file_to_s3`: puts the data under `"uploads/{name}_{secs}.{ext}"` and returns the
      object's URL; a bucket error comes back as it is, with no URL. */
  function UploadFileToS3(bucket: Bucket, data: Bytes, fileName: string, contentType: string, secs: int,
                          put: (string, string, Bytes) -> Result<(), string>): (r: Result<string, string>)
    ensures var key := S3Key(fileName, secs);
            match put(key, contentType, data)
            case Failure(e) => r == Failure(e)
            case Success(_) => r == Success(ObjectUrl(bucket, key))
  {
    var key := S3Key(fileName, secs);
    match put(key, contentType, data)
    case Failure(e) => Failure(e)
    case Success(_) => Success(ObjectUrl(bucket, key))
  }

  /** Stamped in seconds, two uploads of one file name within the same second are put under
      the same key, so the second overwrites the first; a later second gives a new key. */
  lemma SameSecondSameKey(fileName: string, secs1: int, secs2: int)
    ensures S3Key(fileName, secs1) == S3Key(fileName, secs2) <==> secs1 == secs2
  {
    if S3Key(fileName, secs1) == S3Key(fileName, secs2) {
      assert ObjectName(fileName, secs1) == S3Key(fileName, secs1)[8..];
      assert ObjectName(fileName, secs2) == S3Key(fileName, secs2)[8..];
      ObjectNameStampInjective(fileName, secs1, secs2);
    }
  }
}
