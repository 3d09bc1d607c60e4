/** `upload_file` of the `core` generation: walks the multipart stream and uploads the first
    field named "file" that has a file name, through the configured storage backend. */
module UploadController {
  import opened Wrappers
  import opened Http
  import opened CoreError
  import opened Storage
  import opened Multipart

  /** The options the handler builds for a field: its file name, and its content type or ""
      when it declares none. */
  function FieldOptions(f: Field, millis: int): (o: UploadOptions)
    requires f.fileName.Some?
    ensures o == UploadOptions(f.fileName.value, Some(ContentType(f)))
  {
    SetFileName(NewUploadOptions(millis), f.fileName.value).(contentType := Some(ContentType(f)))
  }

  /** The answer for the field the loop stops at. */
  function UploadOutcome(backend: Backend, f: Field, millis: int,
                         put: (string, string, Bytes) -> Result<(), string>,
                         write: (string, Bytes) -> Result<(), string>): Result<Response, HttpError>
    requires f.fileName.Some?
  {
    match Upload(backend, Data(f), FieldOptions(f, millis), millis, put, write)
    case Failure(e) => Failure(ServerError(Storage.Display(e)))
    case Success(url) => Success(Created(url))
  }

  /** `upload_file`. A read error answers 400 with its text; parts not named "file", and
      "file" parts without a file name, are passed over; the first uploadable part is stored
      and answers 201 with its URL, or 500 with the storage error's text; a stream with no
      such part answers 400 "File field is required". `millis` is the time the upload reads. */
  method UploadFile(backend: Backend, stream: seq<Next>, millis: int,
                    put: (string, string, Bytes) -> Result<(), string>,
                    write: (string, Bytes) -> Result<(), string>) returns (r: Result<Response, HttpError>)
    ensures Select(stream).NoFile? ==> r == Failure(BadRequest(FILE_REQUIRED))
    ensures Select(stream).Broken? ==> r == Failure(BadRequest(Select(stream).text))
    ensures Select(stream).Chosen? ==>
              r == UploadOutcome(backend, stream[Select(stream).index].field, millis, put, write)
  {
    var i := 0;
    while i < |stream|
      invariant 0 <= i <= |stream|
      invariant forall j :: 0 <= j < i ==> Skipped(stream[j])
    {
      match stream[i]
      case ReadError(t) =>
        SelectAt(stream, i);
        return Failure(BadRequest(t));
      case Part(field) =>
        var name := Name(field);
        var contentType := ContentType(field);
        var fileName := field.fileName;
        if name != FILE_FIELD {
          i := i + 1;
          continue;
        }
        if fileName.Some? {
          var data := Data(field);
          var options := SetContentType(SetFileName(NewUploadOptions(millis), fileName.value), contentType);
          SelectAt(stream, i);
          var stored := Upload(backend, data, options, millis, put, write);
          if stored.Failure? {
            return Failure(ServerError(Storage.Display(stored.error)));
          }
          return Success(Created(stored.value));
        }
        i := i + 1;
    }
    r := Failure(BadRequest(FILE_REQUIRED));
  }

  /** The handler always hands the backend a content type, "" for a part that declares none,
      so the storage never refuses the options it is given. */
  lemma OptionsNeverRefused(backend: Backend, f: Field, millis: int,
                            put: (string, string, Bytes) -> Result<(), string>,
                            write: (string, Bytes) -> Result<(), string>)
    requires f.fileName.Some?
    ensures var stored := Upload(backend, Data(f), FieldOptions(f, millis), millis, put, write);
            !(stored.Failure? && stored.error.InvalidUploadOptions?)
  {
    OptionsRefusedOnlyByS3(backend, Data(f), FieldOptions(f, millis), millis, put, write);
  }
}
