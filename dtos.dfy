/** The request bodies and the rules `Validate` checks on them. The email and URL format
    checks of the `validator` crate are taken as given predicates. */
module Dtos {
  import opened Wrappers
  import opened Validator

  const EMAIL_REQUIRED: string := "Email is required"
  const INVALID_EMAIL: string := "Invalid email"
  const USERNAME_REQUIRED: string := "Username is required"
  const PIN_REQUIRED: string := "Pin is required"
  const POST_ID_REQUIRED: string := "Post ID is required"
  const COMMENT_LENGTH: string := "Content characters must be between 1 and 10000"
  const TITLE_LENGTH: string := "Title's length must be between 1 and 100 characters"
  const POST_CONTENT_REQUIRED: string := "Post's content is required"
  const INVALID_IMAGE_URL: string := "Invalid profile image url"

  const MAX_COMMENT_LENGTH: nat := 10000
  const MAX_TITLE_LENGTH: nat := 100

  datatype LoginUserDto = LoginUserDto(email: string, username: string, profileImageUrl: Option<string>)
  datatype VerifyEmailDto = VerifyEmailDto(email: string, pin: string)
  datatype CreateCommentDto = CreateCommentDto(parentId: Option<string>, postId: string, content: string)
  datatype UpdateCommentDto = UpdateCommentDto(content: string)
  datatype CreatePostDto = CreatePostDto(title: string, content: string, media: Option<seq<string>>)
  datatype UpdatePostDto = UpdatePostDto(content: string)
  datatype UpdateProfileDto = UpdateProfileDto(username: Option<string>, profileImageUrl: Option<string>)

  /** The two rules every email field carries: present, then well formed. */
  function EmailRules(email: string, isEmail: string -> bool): seq<Rule> {
    [Rule(LengthWithin(email, 1, None), EMAIL_REQUIRED), Rule(isEmail(email), INVALID_EMAIL)]
  }

  // ---------------------------------------------------------------------------
  // LoginUserDto: the profile image URL is not checked.
  // ---------------------------------------------------------------------------

  function LoginRules(d: LoginUserDto, isEmail: string -> bool): seq<(string, seq<Rule>)> {
    [("email", EmailRules(d.email, isEmail)),
     ("username", [Rule(LengthWithin(d.username, 1, None), USERNAME_REQUIRED)])]
  }

  function ValidateLogin(d: LoginUserDto, isEmail: string -> bool): (r: Result<(), seq<FieldFailures>>)
    ensures r.Success? <==> d.email != "" && isEmail(d.email) && d.username != ""
  {
    var email, username := EmailRules(d.email, isEmail), [Rule(LengthWithin(d.username, 1, None), USERNAME_REQUIRED)];
    ValidateTwoFields("email", email, "username", username);
    assert AllHold(email) <==> email[0].holds && email[1].holds;
    assert AllHold(username) <==> username[0].holds;
    Validate(LoginRules(d, isEmail))
  }

  lemma LoginMessages(d: LoginUserDto, isEmail: string -> bool)
    ensures d.email == "" ==> Reported(ValidateLogin(d, isEmail), "email", EMAIL_REQUIRED)
    ensures !isEmail(d.email) ==> Reported(ValidateLogin(d, isEmail), "email", INVALID_EMAIL)
    ensures d.username == "" ==> Reported(ValidateLogin(d, isEmail), "username", USERNAME_REQUIRED)
  {
    var fields := LoginRules(d, isEmail);
    if d.email == "" { FailingRuleReported(fields, 0, 0); }
    if !isEmail(d.email) { FailingRuleReported(fields, 0, 1); }
    if d.username == "" { FailingRuleReported(fields, 1, 0); }
  }

  // ---------------------------------------------------------------------------
  // VerifyEmailDto: the pin only has to be present; its digits are not checked.
  // ---------------------------------------------------------------------------

  function VerifyEmailRules(d: VerifyEmailDto, isEmail: string -> bool): seq<(string, seq<Rule>)> {
    [("email", EmailRules(d.email, isEmail)),
     ("pin", [Rule(LengthWithin(d.pin, 1, None), PIN_REQUIRED)])]
  }

  function ValidateVerifyEmail(d: VerifyEmailDto, isEmail: string -> bool): (r: Result<(), seq<FieldFailures>>)
    ensures r.Success? <==> d.email != "" && isEmail(d.email) && d.pin != ""
  {
    var email, pin := EmailRules(d.email, isEmail), [Rule(LengthWithin(d.pin, 1, None), PIN_REQUIRED)];
    ValidateTwoFields("email", email, "pin", pin);
    assert AllHold(email) <==> email[0].holds && email[1].holds;
    assert AllHold(pin) <==> pin[0].holds;
    Validate(VerifyEmailRules(d, isEmail))
  }

  lemma VerifyEmailMessages(d: VerifyEmailDto, isEmail: string -> bool)
    ensures d.email == "" ==> Reported(ValidateVerifyEmail(d, isEmail), "email", EMAIL_REQUIRED)
    ensures !isEmail(d.email) ==> Reported(ValidateVerifyEmail(d, isEmail), "email", INVALID_EMAIL)
    ensures d.pin == "" ==> Reported(ValidateVerifyEmail(d, isEmail), "pin", PIN_REQUIRED)
  {
    var fields := VerifyEmailRules(d, isEmail);
    if d.email == "" { FailingRuleReported(fields, 0, 0); }
    if !isEmail(d.email) { FailingRuleReported(fields, 0, 1); }
    if d.pin == "" { FailingRuleReported(fields, 1, 0); }
  }

  // ---------------------------------------------------------------------------
  // Comments: the parent id is not checked.
  // ---------------------------------------------------------------------------

  function CommentContentRule(content: string): Rule {
    Rule(LengthWithin(content, 1, Some(MAX_COMMENT_LENGTH)), COMMENT_LENGTH)
  }

  function CreateCommentRules(d: CreateCommentDto): seq<(string, seq<Rule>)> {
    [("post_id", [Rule(LengthWithin(d.postId, 1, None), POST_ID_REQUIRED)]),
     ("content", [CommentContentRule(d.content)])]
  }

  function ValidateCreateComment(d: CreateCommentDto): (r: Result<(), seq<FieldFailures>>)
    ensures r.Success? <==> d.postId != "" && 1 <= |d.content| <= MAX_COMMENT_LENGTH
  {
    var postId, content := [Rule(LengthWithin(d.postId, 1, None), POST_ID_REQUIRED)], [CommentContentRule(d.content)];
    ValidateTwoFields("post_id", postId, "content", content);
    assert AllHold(postId) <==> postId[0].holds;
    assert AllHold(content) <==> content[0].holds;
    Validate(CreateCommentRules(d))
  }

  lemma CreateCommentMessages(d: CreateCommentDto)
    ensures d.postId == "" ==> Reported(ValidateCreateComment(d), "post_id", POST_ID_REQUIRED)
    ensures !(1 <= |d.content| <= MAX_COMMENT_LENGTH) ==> Reported(ValidateCreateComment(d), "content", COMMENT_LENGTH)
  {
    var fields := CreateCommentRules(d);
    if d.postId == "" { FailingRuleReported(fields, 0, 0); }
    if !(1 <= |d.content| <= MAX_COMMENT_LENGTH) { FailingRuleReported(fields, 1, 0); }
  }

  function UpdateCommentRules(d: UpdateCommentDto): seq<(string, seq<Rule>)> {
    [("content", [CommentContentRule(d.content)])]
  }

  function ValidateUpdateComment(d: UpdateCommentDto): (r: Result<(), seq<FieldFailures>>)
    ensures r.Success? <==> 1 <= |d.content| <= MAX_COMMENT_LENGTH
  {
    Validate(UpdateCommentRules(d))
  }

  lemma UpdateCommentMessages(d: UpdateCommentDto)
    ensures ValidateUpdateComment(d).Failure? ==> Reported(ValidateUpdateComment(d), "content", COMMENT_LENGTH)
  {
    if !(1 <= |d.content| <= MAX_COMMENT_LENGTH) { FailingRuleReported(UpdateCommentRules(d), 0, 0); }
  }

  // ---------------------------------------------------------------------------
  // Posts: the content has no upper bound and the media list is not checked.
  // ---------------------------------------------------------------------------

  function PostContentRule(content: string): Rule {
    Rule(LengthWithin(content, 1, None), POST_CONTENT_REQUIRED)
  }

  function CreatePostRules(d: CreatePostDto): seq<(string, seq<Rule>)> {
    [("title", [Rule(LengthWithin(d.title, 1, Some(MAX_TITLE_LENGTH)), TITLE_LENGTH)]),
     ("content", [PostContentRule(d.content)])]
  }

  function ValidateCreatePost(d: CreatePostDto): (r: Result<(), seq<FieldFailures>>)
    ensures r.Success? <==> 1 <= |d.title| <= MAX_TITLE_LENGTH && d.content != ""
  {
    var title, content := [Rule(LengthWithin(d.title, 1, Some(MAX_TITLE_LENGTH)), TITLE_LENGTH)], [PostContentRule(d.content)];
    ValidateTwoFields("title", title, "content", content);
    assert AllHold(title) <==> title[0].holds;
    assert AllHold(content) <==> content[0].holds;
    Validate(CreatePostRules(d))
  }

  lemma CreatePostMessages(d: CreatePostDto)
    ensures !(1 <= |d.title| <= MAX_TITLE_LENGTH) ==> Reported(ValidateCreatePost(d), "title", TITLE_LENGTH)
    ensures d.content == "" ==> Reported(ValidateCreatePost(d), "content", POST_CONTENT_REQUIRED)
  {
    var fields := CreatePostRules(d);
    if !(1 <= |d.title| <= MAX_TITLE_LENGTH) { FailingRuleReported(fields, 0, 0); }
    if d.content == "" { FailingRuleReported(fields, 1, 0); }
  }

  function UpdatePostRules(d: UpdatePostDto): seq<(string, seq<Rule>)> {
    [("content", [PostContentRule(d.content)])]
  }

  function ValidateUpdatePost(d: UpdatePostDto): (r: Result<(), seq<FieldFailures>>)
    ensures r.Success? <==> d.content != ""
  {
    var fields := UpdatePostRules(d);
    assert fields[0].1[0].holds <==> d.content != "";
    Validate(fields)
  }

  lemma UpdatePostMessages(d: UpdatePostDto)
    ensures ValidateUpdatePost(d).Failure? ==> Reported(ValidateUpdatePost(d), "content", POST_CONTENT_REQUIRED)
  {
    if d.content == "" { FailingRuleReported(UpdatePostRules(d), 0, 0); }
  }

  // ---------------------------------------------------------------------------
  // UpdateProfileDto: each rule applies only when its field is present.
  // ---------------------------------------------------------------------------

  function UpdateProfileRules(d: UpdateProfileDto, isUrl: string -> bool): seq<(string, seq<Rule>)> {
    [("username", [OnPresent(d.username, (s: string) => LengthWithin(s, 1, None), USERNAME_REQUIRED)]),
     ("profile_image_url", [OnPresent(d.profileImageUrl, isUrl, INVALID_IMAGE_URL)])]
  }

  function ValidateUpdateProfile(d: UpdateProfileDto, isUrl: string -> bool): (r: Result<(), seq<FieldFailures>>)
    ensures r.Success? <==> d.username != Some("") && (d.profileImageUrl.None? || isUrl(d.profileImageUrl.value))
  {
    var username := [OnPresent(d.username, (s: string) => LengthWithin(s, 1, None), USERNAME_REQUIRED)];
    var url := [OnPresent(d.profileImageUrl, isUrl, INVALID_IMAGE_URL)];
    ValidateTwoFields("username", username, "profile_image_url", url);
    assert AllHold(username) <==> username[0].holds;
    assert AllHold(url) <==> url[0].holds;
    Validate(UpdateProfileRules(d, isUrl))
  }

  lemma UpdateProfileMessages(d: UpdateProfileDto, isUrl: string -> bool)
    ensures d.username == Some("") ==> Reported(ValidateUpdateProfile(d, isUrl), "username", USERNAME_REQUIRED)
    ensures d.profileImageUrl.Some? && !isUrl(d.profileImageUrl.value) ==>
              Reported(ValidateUpdateProfile(d, isUrl), "profile_image_url", INVALID_IMAGE_URL)
  {
    var fields := UpdateProfileRules(d, isUrl);
    if d.username == Some("") { FailingRuleReported(fields, 0, 0); }
    if d.profileImageUrl.Some? && !isUrl(d.profileImageUrl.value) { FailingRuleReported(fields, 1, 0); }
  }
}
