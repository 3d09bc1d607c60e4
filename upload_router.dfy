/** The legacy `upload_file` route: the same walk over the multipart stream, storing the first
    uploadable part straight into S3 with a key stamped in seconds. */
module UploadRouter {
  import opened Wrappers
  import opened Http
  import opened ModelsError
  import opened Storage
  import opened Multipart
  import opened Text
  import CtxS3

  /** The answer for the field the loop stops at. */
  function UploadOutcome(bucket: Bucket, f: Field, secs: int,
                         put: (string, string, Bytes) -> Result<(), string>): Result<Response, HttpError>
    requires f.fileName.Some?
  {
    match CtxS3.UploadFileToS3(bucket, Data(f), f.fileName.value, ContentType(f), secs, put)
    case Failure(e) => Failure(New(INTERNAL_SERVER_ERROR, e))
    case Success(url) => Success(Created(url))
  }

  /** `upload_file`: a read error answers 400 with its text; the first uploadable part is
      put into the bucket and answers 201 with its URL, or 500 with the bucket's error; no
      such part answers 400 "File field is required". `secs` is the time the upload reads. */
  method UploadFile(bucket: Bucket, stream: seq<Next>, secs: int,
                    put: (string, string, Bytes) -> Result<(), string>) returns (r: Result<Response, HttpError>)
    ensures Select(stream).NoFile? ==> r == Failure(New(BAD_REQUEST, FILE_REQUIRED))
    ensures Select(stream).Broken? ==> r == Failure(New(BAD_REQUEST, Select(stream).text))
    ensures Select(stream).Chosen? ==> r == UploadOutcome(bucket, stream[Select(stream).index].field, secs, put)
  {
    var i := 0;
    while i < |stream|
      invariant 0 <= i <= |stream|
      invariant forall j :: 0 <= j < i ==> Skipped(stream[j])
    {
      match stream[i]
      case ReadError(t) =>
        SelectAt(stream, i);
        return Failure(New(BAD_REQUEST, t));
      case Part(field) =>
        var name := Name(field);
        var contentType := ContentType(field);
        var fileName := field.fileName;
        if name != FILE_FIELD {
          i := i + 1;
          continue;
        }
        if fileName.Some? {
          SelectAt(stream, i);
          var url := CtxS3.UploadFileToS3(bucket, Data(field), fileName.value, contentType, secs, put);
          if url.Failure? {
            return Failure(New(INTERNAL_SERVER_ERROR, url.error));
          }
          return Success(Created(url.value));
        }
        i := i + 1;
    }
    r := Failure(New(BAD_REQUEST, FILE_REQUIRED));
  }

  /** A successful upload's URL points into the bucket under the part's own extension. */
  lemma CreatedUrlKeepsExtension(bucket: Bucket, f: Field, secs: int,
                                 put: (string, string, Bytes) -> Result<(), string>)
    requires f.fileName.Some? && UploadOutcome(bucket, f, secs, put).Success?
    ensures var key := S3Key(f.fileName.value, secs);
            UploadOutcome(bucket, f, secs, put).value == Created(ObjectUrl(bucket, key)) &&
            SplitAtFirst(key[8..], '.').1 == SplitAtFirst(f.fileName.value, '.').1
  {
    var key := S3Key(f.fileName.value, secs);
    assert key[8..] == ObjectName(f.fileName.value, secs);
    ObjectNameSplits(f.fileName.value, secs);
  }
}
