# rustle, modelled in Dafny

rustle is a small social-media back end written in Rust on axum and Postgres. It has users who sign in with an
emailed verification pin, posts, threaded comments and file uploads. Two generations of the code
live side by side:

- the `core` generation (`src/core`, `src/controllers`, `src/service`);
- the older `ctx` generation (`src/ctx`, `src/models/error.rs`, `src/router`).

This project models the decision and transformation logic of both. That covers the following:

- **Authentication gates.** Which `(method, path)` pairs skip the token check, how the bearer token is read from the header, and what the gate does.
- **Error layers and error types.** How 4xx and 5xx responses are rewritten into the `{status, message, errors?}` envelope.
- **Service functions.** Modelled as operations over in-memory tables.
- **Handlers.** Their ordered checks and their mapping from outcomes to status codes.
- **Request-body validators.**
- **String building.** The media-type codec, storage-backend selection, upload options, object keys and URLs.
- **Configuration and constants.**

Each Postgres table is a class holding `rows: seq<Row>`. The table's methods are proved against pure
functions of the old rows (`UpdatePostOn`, `DeleteCommentOn`, ...). The properties are then proved
about those functions as lemmas: only the matching row changes, a second delete fails, the unique
columns stay unique.

Code that calls out of the process is passed in as a parameter:

- the JWT check and token generation;
- SMTP mail;
- the S3 put and the disk write;
- the email and URL format checks;
- the clock;
- the random pin;
- the ids Postgres generates.

Each one becomes a function-typed argument or a plain value.

Both error layers are modelled as functions:

- `CoreErrorLayer` over `CoreError.HttpError` (`src/core/error/http_error.rs`);
- `CtxErrorLayer` over `ModelsError.HttpError` (`src/models/error.rs`).

A response body, once collected, is `JsonBody(value)`, `TextBody(text)` or `Unreadable`.

The modules follow the source tree:

| module | source |
|---|---|
| `Http`, `Json`, `Text`, `Wrappers` | shared vocabulary: status classes, `HeaderValue::to_str`, the JSON value and its serialiser, decimal rendering, `split_once` and `split` |
| `CoreAuthLayer` | `src/core/layers/auth_layer.rs` |
| `CtxAuthLayer` | `src/ctx/layers/auth_layer.rs` |
| `CoreErrorLayer` | `src/core/layers/error_layer.rs` |
| `CtxErrorLayer` | `src/ctx/layers/error_layer.rs` |
| `CoreError` | `src/core/error/http_error.rs` |
| `ModelsError` | `src/models/error.rs` |
| `Validator` | the part of the `validator` crate the DTOs use |
| `Dtos` | `src/dtos/*.rs` |
| `Models` | `src/models/mod.rs`, `src/models/user.rs` and the row types |
| `Listing` | the `WHERE` / `ORDER BY created_at DESC` / `OFFSET` / `LIMIT` shape of the listing queries |
| `UserService`, `PinService`, `PostService`, `CommentService` | `src/service/*.rs` |
| `AuthController`, `CommentController`, `PostController`, `UserController`, `UploadController`, `Responses` | `src/controllers/*.rs` |
| `AuthRouter`, `UserRouter`, `UploadRouter` | `src/router/auth.rs`, `src/router/user.rs`, `src/router/upload.rs` |
| `Multipart` | the field-selection loop shared by both upload handlers |
| `Storage` | `src/core/services/storage/{mod,s3,disk}.rs` |
| `S3Service` | `src/core/services/s3/mod.rs` |
| `CtxS3` | `src/ctx/services/s3/mod.rs` |
| `Config`, `Constants` | `src/config.rs`, `src/constants.rs` |

Where the code and its documentation differ, the model follows the code. The differences are these:

- **Missing constructors.** The `ctx` error type `src/models/error.rs` defines only `new`, yet the `ctx` layers and routers call `bad_request`, `server_error` and `unauthorized` on it. Those calls are modelled as `New(400 | 500 | 401, text)`.
- **Legacy validation text.** The legacy routers report an invalid body as `bad_request(e.to_string())`. The text `ValidationErrors` renders is a parameter `describe` of those routers.
- **Post creation.** src/controllers/post.rs:25-32 destructures `(post, post_media_list)` and answers a `CreatePostResponseDto`, but `create_post` in src/service/post.rs:8 returns a single `Post` and no DTO file defines `CreatePostResponseDto`, so that handler does not compile against the service shown. `PostController.CreatePost` answers the single inserted post.
- **Validation error order.** `validation_error` collects `field_errors()`, a hash map, so the order of its entries is unspecified. The model lists failing fields in declaration order.

## Model

| member | source | states |
|---|---|---|
| CoreAuthLayer.At | src/core/layers/auth_layer.rs:96-103 | `router.at(path).is_ok()` holds exactly when some inserted template matches the path piece by piece |
| CoreAuthLayer.From | src/core/layers/auth_layer.rs:36-44 | the router built by inserting the paths in order holds exactly their templates, in that order |
| CoreAuthLayer.NewExcludedPaths | src/core/layers/auth_layer.rs:26-34 | `ExcludedPaths::new` builds the standard POST and GET routers and empty PUT/PATCH/DELETE routers |
| CoreAuthLayer.NewLayer | src/core/layers/auth_layer.rs:55-60 | a layer made by `new()`, whose exclusions are the empty defaults, excludes no method and no path |
| CoreAuthLayer.Except | src/core/layers/auth_layer.rs:62-65 | after `except`, a request is excluded exactly when the given exclusions exclude it |
| CoreAuthLayer.AuthorizeUser | src/core/layers/auth_layer.rs:141-156 | with no readable second space-separated word the result is the error "Unauthorized"; otherwise it is exactly the validator's verdict on that word |
| CoreAuthLayer.Decide | src/core/layers/auth_layer.rs:96-116 | bypass exactly when excluded; otherwise admit with the subject the validator returned, or reject with the validator's own error text |
| CoreAuthLayer.Call | src/core/layers/auth_layer.rs:88-127 | a bypassed request goes on untouched; an admitted one goes on with `AuthUser(subject)` attached; a rejected one gets the 401 envelope and the wrapped service is not called |
| CoreAuthLayer.PostExclusions | src/core/layers/auth_layer.rs:28 | POST skips the token check exactly on `/auth/login`, `/auth/verify` and `/upload` |
| CoreAuthLayer.PublicPostReads | src/core/layers/auth_layer.rs:29 | GET `/posts`, `/posts/{id}` and `/posts/user/{id}` skip the token check for every non-empty id without `/` |
| CoreAuthLayer.GetExclusionsOnly | src/core/layers/auth_layer.rs:29 | every GET path that skips the check is one of those three shapes |
| CoreAuthLayer.TrailingSlashNotExcluded | src/core/layers/auth_layer.rs:28-29 | `/posts/` and `/auth/login/` are not excluded |
| CoreAuthLayer.OtherMethodsNeedToken | src/core/layers/auth_layer.rs:96-103 | PUT, PATCH, DELETE and every unrouted method are never excluded by the standard table |
| CoreAuthLayer.MissingTokenRejected | src/core/layers/auth_layer.rs:110-149 | a request that is not excluded and has no header, or a header without a space, is rejected with "Unauthorized" |
| Http.BearerTokenFound | src/core/layers/auth_layer.rs:142-145 | a token is found exactly when the header is present, readable and contains a space |
| Http.TokenIgnoresScheme | src/core/layers/auth_layer.rs:145 | the scheme word is never checked: `"<scheme> <token>"` yields `<token>` |
| Http.HeaderToStr | src/core/layers/auth_layer.rs:144 | a readable header value is the raw header text |
| CtxAuthLayer.NewLayer | src/ctx/layers/auth_layer.rs:46-55 | a layer made by `new()` excludes nothing |
| CtxAuthLayer.Except | src/ctx/layers/auth_layer.rs:46-55 | the given exclusions replace the current ones |
| CtxAuthLayer.Decide | src/ctx/layers/auth_layer.rs:86-106 | bypass exactly when the path is a member of the method's set; otherwise the token decides as in the core gate |
| CtxAuthLayer.Call | src/ctx/layers/auth_layer.rs:78-117 | bypass forwards untouched, admit attaches `AuthUser(subject)`, reject answers 401 without calling the wrapped service |
| CtxAuthLayer.PostExclusions | src/ctx/layers/auth_layer.rs:26-34 | POST skips the check exactly on `/auth/login`, `/auth/verify` and `/upload` |
| CtxAuthLayer.SamePostExclusions | src/ctx/layers/auth_layer.rs:26-34 | the two generations exclude the same POST paths |
| CtxAuthLayer.PostReadsNeedToken | src/ctx/layers/auth_layer.rs:26-34 | here GET `/posts/{id}` needs a token, while the core gate lets it through |
| CtxAuthLayer.ExactPathsOnly | src/ctx/layers/auth_layer.rs:86-93 | paths compare whole: `/auth/login` is excluded, `/auth/login/` is not |
| CoreErrorLayer.HandleResponse | src/core/layers/error_layer.rs:67-98 | the status is kept; a non-error response passes unchanged; an error with a JSON body passes unchanged; an error with a text body becomes the envelope carrying that text; an unreadable body counts as empty text |
| CoreErrorLayer.Call | src/core/layers/error_layer.rs:50-64 | a failure of the wrapped service becomes a 500 envelope carrying its text; a response is what the layer makes of it, with its status kept |
| CoreErrorLayer.HandleResponseIdempotent | src/core/layers/error_layer.rs:67-98 | passing a response through the layer twice equals passing it once |
| CoreErrorLayer.ErrorEnvelopeKept | src/core/layers/error_layer.rs:75-88 | an `HttpError` response already in envelope form passes through unchanged |
| CoreErrorLayer.CallErrorsAreJson | src/core/layers/error_layer.rs:50-98 | every 4xx or 5xx response leaving the layer has a JSON body, and a non-error response passes unchanged |
| CtxErrorLayer.MessageValue | src/ctx/layers/error_layer.rs:89-91 | the body's `message` member, or the string "Unknown server error" when the body is not an object or has none |
| CtxErrorLayer.HandleResponseAsWritten | src/ctx/layers/error_layer.rs:69-96 | the layer as written: the status is kept and non-errors pass unchanged; an error becomes a `{status, message}` envelope whose message is the `Value::to_string` rendering of the JSON body's message, the text of a text body, or empty for an unreadable body |
| CtxErrorLayer.AsWrittenRequotesMessage | src/ctx/layers/error_layer.rs:91-93 | as written, the layer's own envelope sent through again gets its message wrapped in one more pair of quotes |
| CtxErrorLayer.MessageText | src/ctx/layers/error_layer.rs:91-93 | a string message contributes its own characters |
| CtxErrorLayer.HandleResponse | src/ctx/layers/error_layer.rs:69-106 | corrected (see ## Findings): the status is kept; non-errors pass unchanged; an error becomes a `{status, message}` envelope; a text body becomes the envelope carrying that text; it differs from the layer as written only for a JSON body whose message is a string |
| CtxErrorLayer.EnvelopeKept | src/ctx/layers/error_layer.rs:88-95 | corrected (see ## Findings): an envelope the service built passes through unchanged |
| CtxErrorLayer.HandleResponseIdempotent | src/ctx/layers/error_layer.rs:69-106 | corrected (see ## Findings): passing a response through twice equals passing it once |
| CtxErrorLayer.CallIntended | src/ctx/layers/error_layer.rs:50-67 | corrected (see ## Findings): a response goes through the corrected layer; a failure and a non-error response come out as from the layer as written |
| CtxErrorLayer.Call | src/ctx/layers/error_layer.rs:50-67 | a response of the wrapped service goes through the layer as written, keeping its status; a failure becomes a 500 envelope carrying its text |
| CoreError.New | src/core/error/http_error.rs:36-42 | stores the status and message, with no field errors |
| CoreError.BadRequest | src/core/error/http_error.rs:49-51 | status 400 with the message |
| CoreError.ServerError | src/core/error/http_error.rs:53-55 | status 500 with the message |
| CoreError.Unauthorized | src/core/error/http_error.rs:57-59 | status 401 with the message |
| CoreError.NotFound | src/core/error/http_error.rs:61-63 | status 404 with the message |
| CoreError.Forbidden | src/core/error/http_error.rs:65-67 | status 403 with the message |
| CoreError.Conflict | src/core/error/http_error.rs:69-71 | status 409 with the message |
| CoreError.TooManyRequests | src/core/error/http_error.rs:73-75 | status 429 with the message |
| CoreError.FromAnyhow | src/core/error/http_error.rs:105-109 | any error converts to 500 carrying its text |
| CoreError.PresentMessages | src/core/error/http_error.rs:83-86 | keeps exactly the messages that are present |
| CoreError.ValidationError | src/core/error/http_error.rs:77-92 | status 400, message "Request body validation failed", one entry per failing field, each joining that field's present messages with ", " |
| CoreError.ValidationMessages | src/core/error/http_error.rs:83-87 | one message stays as it is; two are joined as `m1, m2` |
| CoreError.ToJsonRoundTrip | src/core/error/http_error.rs:9-21 | the serialised error reads back as the same error, with `errors` omitted when absent |
| CoreError.IntoResponse | src/core/error/http_error.rs:95-103 | a valid stored status is used, anything else becomes 500; the body is the error itself |
| CoreError.DisplayInjective | src/core/error/http_error.rs:25-33 | "HttpError: status=<n>, message=<m>" determines status and message for valid statuses |
| ModelsError.New | src/models/error.rs:14-21 | stores the status and message |
| ModelsError.ToJsonRoundTrip | src/models/error.rs:8-12 | the body has exactly `status` and `message`, and reads back as the same error |
| ModelsError.IntoResponse | src/models/error.rs:23-31 | a valid stored status is used, anything else becomes 500; the body is the error |
| Models.ToStr | src/models/mod.rs:41-51 | every variant renders as one of the five lowercase names (the same table is `src/models/user.rs:14-24`) |
| Models.ToStrInjective | src/models/user.rs:14-24 | distinct variants render differently |
| Models.Deserialize | src/models/mod.rs:14-30 | accepts exactly the five lowercase names; anything else fails with "Invalid media type" |
| Models.Serialize | src/models/mod.rs:32-39 | decoding what is serialised gives back the variant |
| Models.EncodeDecode | src/models/mod.rs:21-37 | serialising an accepted name gives that name back |
| Models.CapitalisedRefused | src/models/mod.rs:27 | "Image" and "VIDEO" are refused |
| Models.DbErrorText | src/controllers/post.rs:25-27 | a database error's display text carries the driver's message |
| Listing.Filter | src/service/post.rs:29-31 | the `WHERE` clause keeps exactly the rows satisfying the predicate |
| Listing.SortNewestFirstSpec | src/service/post.rs:32 | `ORDER BY created_at DESC` yields a newest-first permutation of the rows |
| Listing.Page | src/service/post.rs:33-39 | a negative offset or limit is a database error; otherwise the rows after `offset`, at most `limit` of them |
| Listing.QuerySpec | src/service/post.rs:25-41 | the page holds only kept rows, newest first, at most `limit`, and all of them when offset 0 and the limit covers the table |
| Listing.PageIsWindow | src/service/post.rs:33-39 | `OFFSET`/`LIMIT` cut the window starting at `offset`, of at most `limit` rows, out of the complete ordered listing |
| Listing.IndexWhere | src/service/user.rs:33-40 | the first index satisfying the predicate, or none exactly when no row does |
| Listing.FirstWhere | src/service/verification_pin.rs:5-15 | a row satisfying the predicate, or none exactly when no row does |
| Listing.UpdateWhere | src/service/post.rs:81-97 | `UPDATE ... WHERE`: rows satisfying the predicate are rewritten, the rest stay as they are |
| UserService.GetUserById | src/service/user.rs:33-40 | the row with that id, or none exactly when there is no such row |
| UserService.GetUserByUsername | src/service/user.rs:50-57 | the row with that username, or none exactly when the username is free |
| UserService.GetUserByEmail | src/service/user.rs:59-66 | the row with that email, or none exactly when there is no such row |
| UserService.GetUsersByIds | src/service/user.rs:42-48 | exactly the users whose id is in the list |
| UserService.GetUsersByIdsDistinct | src/service/user.rs:42-48 | repeated ids give no repeated users |
| UserService.CreateUserIfNotExistsOn | src/service/user.rs:5-31 | an existing email returns that user unchanged and ignores username and URL; otherwise a new row is appended, or a unique-violation error when the username is taken |
| UserService.MergeProfile | src/service/user.rs:74-82 | the username and image URL are the payload's when given, else the current ones; no other field changes |
| UserService.UpdateUserOn | src/service/user.rs:68-89 | an unknown id gives RowNotFound and changes nothing; otherwise only that user's row is rewritten, it then holds the merged profile, and the returned user is that stored row |
| UserService.CreateUserTwice | src/service/user.rs:11-15 | a second call with the same email returns the same user and adds no row |
| UserService.CreateUserKeepsUnique | src/service/user.rs:5-31 | ids, emails and usernames stay unique |
| UserService.ImageUrlNeverCleared | src/service/user.rs:74-77 | an image URL, once set, cannot be cleared by an update |
| UserService.UpdateUserKeepsUnique | src/service/user.rs:68-89 | an update keeps ids, emails and usernames unique |
| UserService.UserTable.CreateUserIfNotExists | src/service/user.rs:5-31 | the new rows and result are `CreateUserIfNotExistsOn` of the old rows, and uniqueness is kept |
| UserService.UserTable.UpdateUser | src/service/user.rs:68-89 | the new rows and result are `UpdateUserOn` of the old rows |
| UserService.UserTable.MarkVerified | src/router/auth.rs:50-55 | an unknown email gives RowNotFound and changes nothing; otherwise that user's row gets `is_verified = true` and is returned |
| PinService.GetVerificationPin | src/service/verification_pin.rs:5-15 | a row whose email and pin both match, whatever its expiry, or none exactly when no row matches |
| PinService.ExpiredPinFound | src/service/verification_pin.rs:10 | lookup ignores expiry: an expired row is still found |
| PinService.CreatedPinFound | src/service/verification_pin.rs:17-37 | a pin just inserted is found by its email and pin |
| PinService.PinTable.CreateVerificationPin | src/service/verification_pin.rs:17-37 | appends and returns a row with the given email, pin and expiry |
| PostService.FindPostById | src/service/post.rs:67-79 | the live post with that id, or none exactly when the post is missing or soft-deleted |
| PostService.FindPostsSpec | src/service/post.rs:25-41 | negative offset or limit fails; otherwise only live posts, newest first, exactly the window at `offset` of at most `limit` rows of the complete listing |
| PostService.FindUserPostsSpec | src/service/post.rs:43-65 | as `FindPostsSpec`, further restricted to that user's posts: the window at `offset` of that user's complete newest-first listing |
| PostService.UpdatePostOn | src/service/post.rs:81-97 | only the caller's live post with that id gets the new content; the title and every other row stay; none and no change otherwise |
| PostService.DeletePostOn | src/service/post.rs:99-109 | the caller's post with that id gets `deleted_at`, even if it is already deleted; none and no change when the caller owns no such post |
| PostService.UpdateKeepsTheRest | src/service/post.rs:88-94 | every other row, and the title, are unchanged by an update |
| PostService.DeleteHidesPost | src/service/post.rs:99-109 | after a delete the post is no longer found by id |
| PostService.DeleteTwice | src/service/post.rs:101-104 | a second delete of the same post succeeds again and overwrites the timestamp |
| PostService.UpdateAfterDelete | src/service/post.rs:88 | a deleted post can no longer be updated |
| PostService.PostTable.CreatePost | src/service/post.rs:8-23 | appends and returns a row with the caller's id, title and content, now findable by id |
| PostService.PostTable.UpdatePost | src/service/post.rs:81-97 | new rows and result are `UpdatePostOn` of the old rows |
| PostService.PostTable.DeletePost | src/service/post.rs:99-109 | new rows and result are `DeletePostOn` of the old rows |
| CommentService.QueryBuilder.constructor | src/service/comment.rs:16-18 | starts with the given SQL text and no bound arguments |
| CommentService.QueryBuilder.Push | src/service/comment.rs:19-40 | appends text and binds nothing |
| CommentService.QueryBuilder.PushBind | src/service/comment.rs:19-40 | binds one argument and appends its `$n` placeholder |
| CommentService.BuildPostsCommentsQuery | src/service/comment.rs:16-43 | binds the post id, the parent id only when given, then the offset and the limit, each at its numbered placeholder |
| CommentService.UsersByIdMap | src/service/comment.rs:164-176 | every fetched user's id is a key, and each key maps to a fetched user with that id |
| CommentService.UsersByIdMapExact | src/service/comment.rs:168-175 | with unique ids each user's id maps to that very user |
| CommentService.GetCommentDetails | src/service/comment.rs:142-162 | one detail per comment, in order, each pairing the comment with the user whose id is its author id |
| CommentService.DetailsAuthorIsTheUser | src/service/comment.rs:150-159 | the author attached to a comment is the table's row for that author |
| CommentService.GetPostsComments | src/service/comment.rs:9-52 | negative offset or limit fails; otherwise live comments of that post with that parent (or top-level), newest first, exactly the window at `offset` of at most `limit` rows of the complete listing, each with its author |
| CommentService.GetUserComments | src/service/comment.rs:54-78 | negative offset or limit fails; otherwise one user's live comments, newest first, exactly the window at `offset` of at most `limit` rows of the complete listing, each with its author |
| CommentService.UpdateCommentOn | src/service/comment.rs:102-123 | only the caller's live comment with that id gets the new content; otherwise RowNotFound and no change |
| CommentService.DeleteCommentOn | src/service/comment.rs:125-140 | only the caller's live comment gets `deleted_at`; otherwise RowNotFound and no change |
| CommentService.DeleteCommentTwice | src/service/comment.rs:128-133 | a second delete of the same comment fails with RowNotFound |
| CommentService.UpdateAfterDelete | src/service/comment.rs:108-113 | a deleted comment can no longer be updated |
| CommentService.EditsKeepOthers | src/service/comment.rs:108-133 | rows of other users are never changed by update or delete |
| CommentService.CommentTable.CreateComment | src/service/comment.rs:80-100 | appends and returns the new comment row |
| CommentService.CommentTable.UpdateComment | src/service/comment.rs:102-123 | new rows and result are `UpdateCommentOn` of the old rows |
| CommentService.CommentTable.DeleteComment | src/service/comment.rs:125-140 | new rows and result are `DeleteCommentOn` of the old rows |
| Dtos.ValidateLogin | src/dtos/auth.rs:6-14 | passes exactly when the email is non-empty and well formed and the username non-empty; the image URL is not checked |
| Dtos.LoginMessages | src/dtos/auth.rs:8-11 | each broken rule reports its own message under its field |
| Dtos.ValidateVerifyEmail | src/dtos/auth.rs:16-23 | passes exactly when the email is non-empty and well formed and the pin non-empty; the pin's digits are not checked |
| Dtos.VerifyEmailMessages | src/dtos/auth.rs:18-21 | each broken rule reports its own message under its field |
| Dtos.ValidateCreateComment | src/dtos/comment.rs:4-15 | passes exactly when the post id is non-empty and the content has 1 to 10000 characters; the parent id is not checked |
| Dtos.CreateCommentMessages | src/dtos/comment.rs:7-13 | each broken rule reports its own message under its field |
| Dtos.ValidateUpdateComment | src/dtos/comment.rs:17-25 | passes exactly when the content has 1 to 10000 characters |
| Dtos.UpdateCommentMessages | src/dtos/comment.rs:19-23 | a failure reports the content-length message |
| Dtos.ValidateCreatePost | src/dtos/post.rs:4-15 | passes exactly when the title has 1 to 100 characters and the content is non-empty; media are not checked |
| Dtos.CreatePostMessages | src/dtos/post.rs:6-12 | each broken rule reports its own message under its field |
| Dtos.ValidateUpdatePost | src/dtos/post.rs:17-21 | passes exactly when the content is non-empty |
| Dtos.UpdatePostMessages | src/dtos/post.rs:19 | a failure reports the content message |
| Dtos.ValidateUpdateProfile | src/dtos/user.rs:4-10 | passes exactly when a given username is non-empty and a given URL is well formed; absent fields pass |
| Dtos.UpdateProfileMessages | src/dtos/user.rs:6-8 | each broken rule reports its own message under its field |
| Validator.FailedMessages | src/core/error/http_error.rs:83-86 | the messages are exactly those of the failing rules |
| Validator.Validate | src/core/error/http_error.rs:77-81 | success exactly when every rule of every field holds; a failure names at least one field, none of them without a message |
| Validator.Failing | src/core/error/http_error.rs:78-81 | the fields with a failing rule, each with the messages of its failing rules |
| Validator.FailingRuleReported | src/core/error/http_error.rs:78-87 | every failing rule is reported under its field with its message |
| Validator.ValidateTwoFields | src/dtos/auth.rs:6-23 | a body with two validated fields passes exactly when both fields' rules hold |
| AuthController.VerifyEmail | src/controllers/auth.rs:19-56 | success exactly when the body is valid, a matching pin has not expired, the user exists and a token is issued; the answer carries that user and token; every failure is 400 or 500 |
| AuthController.VerifyEmailChecksInOrder | src/controllers/auth.rs:23-49 | the first failing check answers: validation errors, then "Invalid verification pin", then "Verification pin expired", then "User not found" |
| AuthController.ExpiringNowAccepted | src/controllers/auth.rs:37-41 | a pin that expires exactly now is accepted |
| AuthController.ReplayUntilExpiry | src/controllers/auth.rs:25-55 | the pin is not used up: a successful verification succeeds again, with the same answer, until the pin expires |
| AuthController.LoginOn | src/controllers/auth.rs:66-94 | after validation, a pin row expiring in `VERIFICATION_PIN_EXPIRATION_TIME` is added and the user is found or created; success returns the user by that email after the mail is sent; failures after validation are 500 |
| AuthController.Login | src/controllers/auth.rs:66-94 | the tables and result are `LoginOn` of the old tables |
| AuthController.StoredPinHasSevenDigits | src/controllers/auth.rs:70-75 | a pin drawn from `PIN_RANGE` is stored as seven digits |
| AuthController.LoginThenVerify | src/controllers/auth.rs:19-94 | after a successful login the mailed pin verifies that user until it expires |
| AuthRouter.VerifyEmailOn | src/router/auth.rs:21-62 | a successful verification returns the user by that email with `is_verified` set and stores it; the table is either unchanged or has exactly that user marked |
| AuthRouter.MarkedUserFound | src/router/auth.rs:50-55 | after marking, the lookup by email finds the marked user |
| AuthRouter.VerifyEmail | src/router/auth.rs:21-62 | the new rows and result are `VerifyEmailOn` of the old rows |
| AuthRouter.AgreesWithCore | src/router/auth.rs:21-62 | both generations succeed on the same input with the same token, the legacy one returning the user marked verified; a missing user is 500 here and 400 in the core |
| AuthRouter.LoginOn | src/router/auth.rs:64-136 | the legacy login adds the same pin row and finds or creates the same user as the core one |
| AuthRouter.Login | src/router/auth.rs:64-136 | the tables and result are `LoginOn` of the old tables |
| AuthRouter.LoginAgreesWithCore | src/router/auth.rs:64-136 | same tables, same user on success and same failure status as the core login |
| UserRouter.GetMe | src/router/user.rs:17-28 | the user with that id; a missing user is 500 with the row-not-found text |
| UserRouter.GetMeAgreesWithWhoami | src/router/user.rs:21-25 | it agrees with `whoami` except that a missing user is 500 instead of 404 |
| UserRouter.UpdateProfileOn | src/router/user.rs:30-54 | an invalid body is 400; a taken username is 400 "Username already exists" with no update; otherwise the update of `update_user`, storing the merged profile and returning it, with a database failure as 500 |
| UserRouter.UpdateProfile | src/router/user.rs:30-54 | the new rows and result are `UpdateProfileOn` of the old rows |
| UserRouter.UpdateProfileAgreesWithCore | src/router/user.rs:38-48 | it agrees with the core `update_profile` except that a taken username is 400 instead of 409 |
| Responses.DbFailure | src/controllers/post.rs:25-27 | a service error becomes 500 carrying the error's text |
| Responses.OrServerError | src/controllers/comment.rs:44-45 | success passes through; a service error becomes 500 |
| Responses.EditFailure | src/controllers/comment.rs:83-86 | RowNotFound becomes 404 with the given message; every other error 500 |
| Responses.Accepted | src/controllers/comment.rs:103-109 | 202 with `{"success": true, "message": ...}` |
| CommentController.Normalised | src/controllers/comment.rs:31-35 | an empty `parentId` counts as absent; a non-empty one is kept |
| CommentController.NormaliseParent | src/controllers/comment.rs:31-35 | computes `Normalised` |
| CommentController.ListPostsComments | src/controllers/comment.rs:26-48 | the listing for the normalised parent, with a failure as 500 |
| CommentController.EmptyParentListsTopLevel | src/controllers/comment.rs:31-43 | `parentId=""` lists the top-level comments |
| CommentController.ListUserComments | src/controllers/comment.rs:50-61 | the service listing with a failure as 500: it fails exactly on a negative offset or limit; otherwise that user's comments with their author, newest first, the window at `offset` of the complete listing |
| CommentController.CreateComment | src/controllers/comment.rs:63-73 | inserts the payload as given, without validation, and returns it |
| CommentController.UpdateComment | src/controllers/comment.rs:75-89 | the table follows `UpdateCommentOn`; RowNotFound is 404 "Comment not found", anything else 500 |
| CommentController.DeleteResponse | src/controllers/comment.rs:95-109 | success is 202 with the success message; RowNotFound is 404; anything else 500 |
| CommentController.DeleteComment | src/controllers/comment.rs:91-110 | the table follows `DeleteCommentOn` and the answer is `DeleteResponse` of the outcome |
| CommentController.DeleteTwiceNotFound | src/controllers/comment.rs:91-110 | the first delete answers 202, the second 404 |
| CommentController.OversizedContentFailsRules | src/controllers/comment.rs:63-73 | content over 10000 characters breaks the DTO's rules, which `create_comment` never checks |
| PostController.CreatePost | src/controllers/post.rs:18-33 | an invalid body is 400 with field errors and nothing is inserted; otherwise the post is inserted and returned |
| PostController.ListPosts | src/controllers/post.rs:35-44 | the service listing with a failure as 500: it fails exactly on a negative offset or limit; otherwise live posts newest first, the window at `offset` of at most `limit` rows of the complete listing |
| PostController.ListUserPosts | src/controllers/post.rs:46-56 | the same for one user's posts: `find_user_posts` with a failure as 500, the window at `offset` of that user's complete listing |
| PostController.GetPost | src/controllers/post.rs:58-70 | the live post with that id, or 404 "Post not found" exactly when there is none |
| PostController.UpdatePost | src/controllers/post.rs:72-88 | an invalid body is 400 and nothing changes; otherwise the table follows `UpdatePostOn` and none is 404 |
| PostController.DeleteResponse | src/controllers/post.rs:99-108 | deleted is 202 with the success message; none is 404 "Post not found" |
| PostController.DeletePost | src/controllers/post.rs:90-109 | the table follows `DeletePostOn` and the answer is `DeleteResponse` of the outcome |
| PostController.DeleteTwiceAccepted | src/controllers/post.rs:90-109 | a second delete of an owned post is accepted again |
| PostController.LikePost | src/controllers/post.rs:111-127 | success gives `{"success": true, "liked": b}`; RowNotFound is 404, anything else 500 |
| UserController.Whoami | src/controllers/user.rs:12-24 | the user with that id, or 404 "User not found" exactly when there is none |
| UserController.UpdateProfileOn | src/controllers/user.rs:26-51 | an invalid body is 400; a taken username is 409 with no update; otherwise the merged profile is stored in that user's row and returned; a failure changes nothing |
| UserController.UpdateProfile | src/controllers/user.rs:26-51 | the new rows and result are `UpdateProfileOn` of the old rows |
| UserController.OwnUsernameConflicts | src/controllers/user.rs:33-44 | asking for the caller's own current username is 409 |
| UserController.UnknownUserIsTheOnlyServerError | src/controllers/user.rs:46-48 | after validation and the username check, an update fails with 500 exactly when the user is unknown |
| Multipart.Select | src/controllers/upload.rs:14-51 | the first field named "file" with a file name is chosen; a read error before it breaks the loop; no such field means none |
| Multipart.SelectAt | src/controllers/upload.rs:23-27 | when every earlier part is skipped, the part at `i` decides |
| Multipart.SelectIgnoresLaterParts | src/controllers/upload.rs:27-50 | parts after a decision are never read |
| Multipart.Created | src/controllers/upload.rs:41-49 | 201 with body `{"url": url}` |
| UploadController.FieldOptions | src/controllers/upload.rs:28-33 | the options carry the field's file name and its content type, "" when missing |
| UploadController.UploadFile | src/controllers/upload.rs:10-54 | no qualifying field is 400 "File field is required"; a read error is 400 with its text; otherwise the chosen field is uploaded and the answer is 201 with the URL or 500 |
| UploadController.OptionsNeverRefused | src/controllers/upload.rs:31-33 | the options always carry a content type, so the backend never refuses them |
| UploadRouter.UploadFile | src/router/upload.rs:15-53 | the same field choice; the chosen field goes to S3 with a seconds timestamp |
| UploadRouter.CreatedUrlKeepsExtension | src/router/upload.rs:36-48 | the URL answered ends in the object key built from the file name |
| Storage.GetStorageType | src/core/services/storage/mod.rs:85-94 | S3 exactly when `STORAGE_TYPE` is "s3"; disk for "disk", any other value or unset |
| Storage.NewProvider | src/core/services/storage/mod.rs:73-83 | the backend matches the selected kind |
| Storage.NewUploadOptions | src/core/services/storage/mod.rs:40-47 | no content type; the file name is the decimal millisecond timestamp |
| Storage.NewUploadOptionsNameParses | src/core/services/storage/mod.rs:41 | that file name parses back to the timestamp |
| Storage.SetFileName | src/core/services/storage/mod.rs:49-52 | replaces only the file name |
| Storage.SetContentType | src/core/services/storage/mod.rs:54-57 | sets the content type and keeps the file name |
| Storage.SettersCommute | src/core/services/storage/mod.rs:49-57 | the two setters commute, and together fix both fields |
| Storage.Display | src/core/services/storage/mod.rs:22-32 | the text is a fixed prefix per kind followed by the inner error's text |
| Storage.DisplayInjective | src/core/services/storage/mod.rs:22-32 | distinct errors display differently |
| Storage.ObjectNameSplits | src/core/services/storage/s3.rs:51-58 | the object name splits back at its first '.' into `<name>_<stamp>` and the extension, which keeps any later dots |
| Storage.NoDotEndsInDot | src/core/services/storage/s3.rs:51-58 | a file name without a dot gives `<name>_<stamp>.` |
| Storage.ObjectNameStampInjective | src/core/services/storage/disk.rs:51-58 | two uploads of the same file name at different times get different names |
| Storage.S3Upload | src/core/services/storage/s3.rs:36-73 | a missing content type fails with "Content type is required" before any put; a put failure is an S3 error; success is the bucket URL of `uploads/<object name>` |
| Storage.DiskUpload | src/core/services/storage/disk.rs:44-72 | a write failure is an Io error; success is `<server url>/<root>/<object name>` |
| Storage.Upload | src/core/services/storage/mod.rs:60-67 | dispatches to the selected backend |
| Storage.OptionsRefusedOnlyByS3 | src/core/services/storage/s3.rs:43-49 | only the S3 backend refuses options, and only for a missing content type |
| Storage.UrlEndsInObjectName | src/core/services/storage/s3.rs:65-70 | every URL returned ends in the object name |
| S3Service.UploadFile | src/core/services/s3/mod.rs:30-59 | a bucket error propagates; success is `https://<bucket>.s3.<region>.amazonaws.com/uploads/<name>_<millis>.<ext>` |
| S3Service.AgreesWithStorageBackend | src/core/services/s3/mod.rs:38-56 | it gives the same key and URL as the storage S3 backend with that content type |
| CtxS3.UploadFileToS3 | src/ctx/services/s3/mod.rs:27-55 | the same URL shape with the timestamp in seconds |
| CtxS3.SameSecondSameKey | src/ctx/services/s3/mod.rs:37-42 | two uploads of one file name get the same key exactly when they fall in the same second |
| Config.ParseEnv | src/config.rs:27-33 | "dev" is DEV, "release" is RELEASE, matched case-sensitively; anything else fails with "Error parsing Config::env : Unknown environment" |
| Config.ParseEnvRoundTrip | src/config.rs:27-33 | each environment's name parses back to it |
| Config.CapitalisedEnvRefused | src/config.rs:31 | "Dev" and "RELEASE" are refused |
| Config.Build | src/config.rs:10-16 | a configuration exists exactly when `CARGO_PROFILE` is set to a known environment; otherwise `build` panics |
| Constants.PinHasSevenDigits | src/constants.rs:7 | every pin in `PIN_RANGE` renders as exactly seven digits |
| Constants.BodyLimit | src/constants.rs:19-22 | the limit is always a u64 value |
| Constants.BodyLimitDefault | src/constants.rs:20-21 | an unset or unparsable variable gives 5 MiB |
| Constants.BodyLimitExact | src/constants.rs:21 | for n below 2^44 the limit is n × 1024 × 1024 |
| Constants.BodyLimitWraps | src/constants.rs:21 | from 2^44 up the product wraps modulo 2^64, and 2^44 gives 0 |
| Text.Decimal | src/core/services/storage/mod.rs:41 | decimal rendering: at least one digit, all digits, no leading zero |
| Text.ParseU64OfDecimal | src/constants.rs:21 | `parse::<u64>` reads back every rendered value below 2^64 |
| Text.DecimalInjective | src/core/services/storage/mod.rs:41 | distinct numbers render differently |
| Text.SplitAtFirst | src/core/services/storage/s3.rs:51 | `split_once('.')`: the head has no dot and head + "." + tail is the input; without a dot the whole name and "" |
| Text.Split | src/core/layers/auth_layer.rs:145 | `split(' ')`: the pieces hold no separator, and there are two or more exactly when it occurs |
| Text.JoinOfSplit | src/core/layers/auth_layer.rs:145 | joining the pieces with the separator restores the input |
| Text.SplitOfJoin | src/core/layers/auth_layer.rs:145 | splitting a join of separator-free pieces gives back the pieces |
| Json.Get | src/ctx/layers/error_layer.rs:91 | `json.get(key)`: a member with that key of an object, or none exactly when the value is not an object or has no such member |
| Json.SerializeString | src/ctx/layers/error_layer.rs:93 | a string serialises with surrounding quotes, and as `"s"` itself when nothing needs escaping |

## Left out

- Transport and database connection failures are not modelled; a failing SQL statement appears only where the code names its error (RowNotFound, a unique violation, a negative OFFSET or LIMIT).
- A negative `offset` or `limit` is passed to Postgres unchecked, which rejects it; the model turns it into a database error and hence a 500.
- Postgres tie-breaking on equal `created_at` is not modelled; listings are stated as windows of a newest-first permutation of the kept rows, not of one fixed order.
- Foreign keys (a comment's post, a post's author) and `ON DELETE` rules are not modelled.
- `update_post` does not set `updated_at` in the source, and the model does not either.
- The like service is not part of this model; `PostController.LikePost` takes its outcome as a parameter.
- `create_post` ignores the `media` list of its body, and the model stores no media.
- `tokio::try_join!` in both logins runs the pin and user inserts concurrently; they are modelled in sequence, so a pin row stays in the table when the user insert then fails.
- Mail sending, JWT generation and validation, the S3 put, file creation and writes, and the email and URL format checks are function parameters; their own behaviour is not modelled.
- `generate_pin` is a random draw; the drawn number is a parameter, and only the `PIN_RANGE` property is stated.
- The two clock reads of an upload (`UploadOptions::new` and the key) are one millisecond value; the legacy S3 upload takes seconds.
- `SERVER_URL`, the disk storage root and the bucket's name and region are parameters.
- `serde_json` parsing is not modelled: a body is already a JSON value, a text or unreadable; the multipart stream is a sequence of parsed parts.
- `validation_error` collects a hash map, so the order of its field entries is unspecified in the source; the model uses declaration order.
- Route tables, CORS, timeouts, tracing, the `mem::replace` clone and `poll_ready` in the layers are framework wiring and are not modelled.
- `CoreAuthLayer.At`: matchit's catch-all and optional segments are not modelled, because every excluded route uses only literal and `{param}` segments.
- `Constants.BodyLimit`: the debug-build overflow panic of `n * 1024 * 1024` is not modelled; the release wrap-around is.
- `Config.Build`: a panic is modelled as `None`.
- `CommentService.GetCommentDetails`: a comment whose author is not among the fetched users aborts with "author not found" in the source; the model requires every author to be present.
- `AuthRouter.VerifyEmailOn`: the text of the legacy validation failure is the parameter `describe`, not the `validator` crate's own rendering.
- `AuthRouter.VerifyEmailOn`: the `UPDATE` setting `is_verified` is kept when token generation fails afterwards, as in the source.
- `UserRouter.UpdateProfileOn`: the text of the legacy validation failure is the parameter `describe`.
- `UserRouter.UpdateProfileOn`: src/router/user.rs:14 imports `get_user_by_username` and `update_user` from `crate::repositories::user`, which is not part of this model; `UserService.GetUserByUsername` and `UserService.UpdateUserOn` stand in for them.
- `AuthController.LoginThenVerify`: requires that no older row holds the same email and pin, since the first-match lookup could otherwise return an older, expired row.

## Findings

| source | as written | input that shows it | evidently intended | confidence | as-written member | corrected member |
|---|---|---|---|---|---|---|
| src/ctx/layers/error_layer.rs:91-93 | the message of a JSON error body is rendered with `Value::to_string`, so a string message keeps its JSON quotes | a 404 whose body is the layer's own envelope `{"status":404,"message":"Not Found"}` comes out with message `"\"Not Found\""`, and each further pass adds another pair | a string message is used as its own text, so the envelope passes through unchanged | not executed | CtxErrorLayer.AsWrittenRequotesMessage | CtxErrorLayer.EnvelopeKept |
