/** The rows the service stores and returns, the media-type codec, and the two database
    failures the handlers tell apart. Timestamps are whole seconds since the epoch. */
module Models {
  import opened Wrappers

  // ---------------------------------------------------------------------------
  // Media types
  // ---------------------------------------------------------------------------

  datatype MediaType = Image | Video | Document | Audio | Other

  /** `MediaType::to_str`: the lower-case name of the variant. */
  function ToStr(m: MediaType): (s: string)
    ensures s in MEDIA_NAMES
  {
    match m
    case Image => "image"
    case Video => "video"
    case Document => "document"
    case Audio => "audio"
    case Other => "other"
  }

  const MEDIA_NAMES: set<string> := {"image", "video", "document", "audio", "other"}

  const INVALID_MEDIA_TYPE: string := "Invalid media type"

  /** Deserializing a media type from its JSON string: exactly the five lower-case names. */
  function Deserialize(s: string): (r: Result<MediaType, string>)
    ensures r.Success? <==> s in MEDIA_NAMES
    ensures r.Failure? ==> r.error == INVALID_MEDIA_TYPE
  {
    if s == "image" then Success(Image)
    else if s == "video" then Success(Video)
    else if s == "document" then Success(Document)
    else if s == "audio" then Success(Audio)
    else if s == "other" then Success(Other)
    else Failure(INVALID_MEDIA_TYPE)
  }

  /** Serializing a media type writes its `to_str` name, which decodes to the same variant. */
  function Serialize(m: MediaType): (s: string)
    ensures Deserialize(s) == Success(m)
  {
    ToStr(m)
  }

  /** Encoding what was decoded gives the accepted text back. */
  lemma EncodeDecode(s: string)
    requires Deserialize(s).Success?
    ensures Serialize(Deserialize(s).value) == s
  {
  }

  /** Distinct variants have distinct names. */
  lemma ToStrInjective(a: MediaType, b: MediaType)
    requires ToStr(a) == ToStr(b)
    ensures a == b
  {
    assert Deserialize(ToStr(a)) == Success(a);
  }

  /** Capitalised names are refused: the decoder is case-sensitive. */
  lemma CapitalisedRefused()
    ensures Deserialize("Image") == Failure(INVALID_MEDIA_TYPE)
    ensures Deserialize("VIDEO") == Failure(INVALID_MEDIA_TYPE)
  {
  }

  // ---------------------------------------------------------------------------
  // Rows
  // ---------------------------------------------------------------------------

  datatype User = User(
    id: string,
    email: string,
    username: string,
    profileImageUrl: Option<string>,
    isVerified: bool,
    createdAt: int,
    updatedAt: Option<int>)

  datatype VerificationPin = VerificationPin(
    id: string,
    email: string,
    pin: string,
    expiresAt: int,
    createdAt: int)

  datatype Post = Post(
    id: string,
    userId: string,
    title: string,
    content: string,
    createdAt: int,
    updatedAt: Option<int>,
    deletedAt: Option<int>)

  datatype PostComment = PostComment(
    id: string,
    postId: string,
    userId: string,
    parentId: Option<string>,
    content: string,
    createdAt: int,
    updatedAt: Option<int>,
    deletedAt: Option<int>)

  /** A comment together with its author. */
  datatype PostCommentDetails = PostCommentDetails(comment: PostComment, author: User)

  // ---------------------------------------------------------------------------
  // Database failures
  // ---------------------------------------------------------------------------

  /** `sqlx::Error` as far as the handlers look: a query that expected a row found none,
      or the database refused the statement (a broken constraint, a bad argument). */
  datatype DbError = RowNotFound | Database(message: string)

  const ROW_NOT_FOUND_TEXT: string := "no rows returned by a query that expected to return at least one row"
  const DATABASE_PREFIX: string := "error returned from database: "

  /** `sqlx::Error`'s `Display` text. */
  function DbErrorText(e: DbError): (t: string)
    ensures e.Database? ==> t == DATABASE_PREFIX + e.message
  {
    match e
    case RowNotFound => ROW_NOT_FOUND_TEXT
    case Database(message) => DATABASE_PREFIX + message
  }
}
