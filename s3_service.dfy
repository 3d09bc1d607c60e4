/** The stand-alone S3 client of the `core` generation: the same key and URL as the storage
    backend, but with the content type given directly and the client's own error. */
module S3Service {
  import opened Wrappers
  import opened Storage

  /** `S3Service::upload_file`: puts the data under `"uploads/{name}_{millis}.{ext}"` and
      returns the object's URL; a bucket error comes back as it is, with no URL. */
  function UploadFile(bucket: Bucket, data: Bytes, fileName: string, contentType: string, millis: int,
                      put: (string, string, Bytes) -> Result<(), string>): (r: Result<string, string>)
    ensures var key := S3Key(fileName, millis);
            match put(key, contentType, data)
            case Failure(e) => r == Failure(e)
            case Success(_) => r == Success(ObjectUrl(bucket, key))
  {
    var key := S3Key(fileName, millis);
    match put(key, contentType, data)
    case Failure(e) => Failure(e)
    case Success(_) => Success(ObjectUrl(bucket, key))
  }

  /** Given a content type, this client and the S3 storage backend store the same object and
      answer with the same URL; they differ only in how an error is wrapped. */
  lemma AgreesWithStorageBackend(bucket: Bucket, data: Bytes, fileName: string, contentType: string, millis: int,
                                 put: (string, string, Bytes) -> Result<(), string>)
    ensures var mine := UploadFile(bucket, data, fileName, contentType, millis, put);
            var backend := S3Upload(bucket, data, UploadOptions(fileName, Some(contentType)), millis, put);
            mine.Success? <==> backend.Success?
    ensures var mine := UploadFile(bucket, data, fileName, contentType, millis, put);
            var backend := S3Upload(bucket, data, UploadOptions(fileName, Some(contentType)), millis, put);
            (mine.Success? ==> mine.value == backend.value) &&
            (mine.Failure? ==> backend.error == S3Error(mine.error))
  {
  }
}
