/** The authentication gate of the `core` generation. A request whose method and path match
    one of the excluded route templates goes straight through; any other request needs a
    bearer token that the token validator turns into a user id, which is attached to the
    request; without one the gate answers 401 itself. */
module CoreAuthLayer {
  import opened Wrappers
  import opened Text
  import opened Http
  import CoreError

  // ---------------------------------------------------------------------------
  // Route templates (the subset of `matchit` the excluded paths use)
  // ---------------------------------------------------------------------------

  /** One `/`-separated piece of a route template: fixed text, or a `{name}` parameter. */
  datatype Segment = Literal(text: string) | Param

  type Template = seq<Segment>

  predicate IsParamPiece(piece: string) {
    |piece| >= 2 && piece[0] == '{' && piece[|piece| - 1] == '}'
  }

  function ParseSegment(piece: string): Segment {
    if IsParamPiece(piece) then Param else Literal(piece)
  }

  function ParseTemplate(route: string): Template {
    var pieces := Split(route, '/');
    seq(|pieces|, i requires 0 <= i < |pieces| => ParseSegment(pieces[i]))
  }

  /** A parameter matches any non-empty piece; fixed text matches only itself. */
  predicate SegmentMatches(s: Segment, piece: string) {
    match s
    case Literal(text) => piece == text
    case Param => piece != []
  }

  predicate TemplateMatches(t: Template, path: string) {
    var pieces := Split(path, '/');
    |pieces| == |t| && forall i :: 0 <= i < |t| ==> SegmentMatches(t[i], pieces[i])
  }

  /** The templates a router holds after inserting `routes` in order. */
  function Compile(routes: seq<string>): seq<Template> {
    seq(|routes|, i requires 0 <= i < |routes| => ParseTemplate(routes[i]))
  }

  /** `router.at(path).is_ok()`: some inserted template matches the path. */
  function At(router: seq<Template>, path: string): (found: bool)
    ensures found <==> exists k :: 0 <= k < |router| && TemplateMatches(router[k], path)
    decreases |router|
  {
    if router == [] then false
    else if TemplateMatches(router[0], path) then true
    else
      var rest := At(router[1..], path);
      assert forall k :: 1 <= k < |router| ==> router[k] == router[1..][k - 1];
      rest
  }

  /** `ExcludedPaths::from`: a router with every path of the list inserted, in order. */
  method From(paths: seq<string>) returns (router: seq<Template>)
    ensures router == Compile(paths)
  {
    router := [];
    var i := 0;
    while i < |paths|
      invariant 0 <= i <= |paths|
      invariant router == Compile(paths[..i])
    {
      router := router + [ParseTemplate(paths[i])];
      i := i + 1;
    }
    assert paths[..i] == paths;
  }

  // ---------------------------------------------------------------------------
  // Excluded paths and the layer
  // ---------------------------------------------------------------------------

  datatype ExcludedPaths = ExcludedPaths(
    post: seq<Template>, get: seq<Template>, put: seq<Template>, patch: seq<Template>, delete: seq<Template>)

  /** `ExcludedPaths::default()`: nothing is excluded. */
  const NO_EXCLUSIONS: ExcludedPaths := ExcludedPaths([], [], [], [], [])

  const POST_ROUTES: seq<string> := ["/auth/login", "/auth/verify", "/upload"]
  const GET_ROUTES: seq<string> := ["/posts", "/posts/{post_id}", "/posts/user/{user_id}"]

  /** The exclusions `ExcludedPaths::new` builds. */
  function Standard(): ExcludedPaths {
    ExcludedPaths(Compile(POST_ROUTES), Compile(GET_ROUTES), [], [], [])
  }

  /** `ExcludedPaths::new`. */
  method NewExcludedPaths() returns (e: ExcludedPaths)
    ensures e == Standard()
  {
    var post := From(POST_ROUTES);
    var get := From(GET_ROUTES);
    var put := From([]);
    var patch := From([]);
    var delete := From([]);
    e := ExcludedPaths(post, get, put, patch, delete);
  }

  datatype AuthLayer = AuthLayer(excluded: ExcludedPaths)

  /** `AuthLayer::new`: a gate with no exclusions. */
  function NewLayer(): (l: AuthLayer)
    ensures forall m, p :: !IsExcluded(l.excluded, m, p)
  {
    AuthLayer(NO_EXCLUSIONS)
  }

  /** `AuthLayer::except`: the given exclusions replace the current ones. */
  function Except(layer: AuthLayer, excluded: ExcludedPaths): (l: AuthLayer)
    ensures forall m, p :: IsExcluded(l.excluded, m, p) == IsExcluded(excluded, m, p)
  {
    AuthLayer(excluded)
  }

  /** The exclusion test of `call`: the router of the request's method; other methods never. */
  function IsExcluded(e: ExcludedPaths, verb: Method, path: string): bool {
    match verb
    case GET => At(e.get, path)
    case POST => At(e.post, path)
    case PUT => At(e.put, path)
    case PATCH => At(e.patch, path)
    case DELETE => At(e.delete, path)
    case Other(_) => false
  }

  const UNAUTHORIZED_MESSAGE: string := "Unauthorized"

  /** `authorize_user`: no readable bearer token is "Unauthorized"; otherwise the validator's
      verdict on the token, its error text included. */
  function AuthorizeUser(authorization: Option<string>, validate: string -> Result<string, string>): (r: Result<string, string>)
    ensures BearerToken(authorization).None? ==> r == Failure(UNAUTHORIZED_MESSAGE)
    ensures BearerToken(authorization).Some? ==> r == validate(BearerToken(authorization).value)
  {
    match BearerToken(authorization)
    case None => Failure(UNAUTHORIZED_MESSAGE)
    case Some(token) => validate(token)
  }

  /** What the gate does with a request. */
  datatype Decision = Bypass | Reject(message: string) | Admit(userId: string)

  function Decide(layer: AuthLayer, verb: Method, path: string, authorization: Option<string>,
                  validate: string -> Result<string, string>): (d: Decision)
    ensures d.Bypass? <==> IsExcluded(layer.excluded, verb, path)
    ensures d.Admit? ==> AuthorizeUser(authorization, validate) == Success(d.userId)
    ensures d.Reject? ==> AuthorizeUser(authorization, validate) == Failure(d.message)
  {
    if IsExcluded(layer.excluded, verb, path) then Bypass
    else match AuthorizeUser(authorization, validate)
      case Success(userId) => Admit(userId)
      case Failure(message) => Reject(message)
  }

  /** Whether `call` hands the request on to the wrapped service or answers it itself. */
  datatype GateOutcome = Forwarded | Responded(response: Response)

  /** `AuthLayerService::call`: a bypassed request goes on as it is; an admitted one goes on
      carrying its user id; a rejected one is answered 401 with the reason as the message. */
  method Call(layer: AuthLayer, req: Request, validate: string -> Result<string, string>) returns (outcome: GateOutcome)
    modifies req
    ensures var d := Decide(layer, req.verb, req.path, req.authorization, validate);
            (d.Bypass? ==> outcome == Forwarded && req.authUser == old(req.authUser)) &&
            (d.Admit? ==> outcome == Forwarded && req.authUser == Some(d.userId)) &&
            (d.Reject? ==> outcome == Responded(CoreError.IntoResponse(CoreError.Unauthorized(d.message))) &&
                           req.authUser == old(req.authUser))
  {
    var excluded := IsExcluded(layer.excluded, req.verb, req.path);
    if excluded {
      return Forwarded;
    }
    var userId := AuthorizeUser(req.authorization, validate);
    if userId.Failure? {
      return Responded(CoreError.IntoResponse(CoreError.Unauthorized(userId.error)));
    }
    req.authUser := Some(userId.value);
    outcome := Forwarded;
  }

  // ---------------------------------------------------------------------------
  // What the standard exclusions let through
  // ---------------------------------------------------------------------------

  lemma TemplateOfTwo(route: string, a: string)
    requires Split(route, '/') == ["", a]
    ensures ParseTemplate(route) == [Literal(""), ParseSegment(a)]
  {
  }

  lemma TemplateOfThree(route: string, a: string, b: string)
    requires Split(route, '/') == ["", a, b]
    ensures ParseTemplate(route) == [Literal(""), ParseSegment(a), ParseSegment(b)]
  {
  }

  lemma TemplateOfFour(route: string, a: string, b: string, c: string)
    requires Split(route, '/') == ["", a, b, c]
    ensures ParseTemplate(route) == [Literal(""), ParseSegment(a), ParseSegment(b), ParseSegment(c)]
  {
  }

  /** A path whose pieces are known, from the pieces joined with '/'. */
  lemma {:induction false} PiecesOf(path: string, pieces: seq<string>)
    requires |pieces| >= 1 && forall i :: 0 <= i < |pieces| ==> '/' !in pieces[i]
    requires Join(pieces, "/") == path
    ensures Split(path, '/') == pieces
  {
    SplitOfJoin(pieces, '/');
  }

  lemma PiecesOfThree(a: string, b: string)
    requires '/' !in a && '/' !in b
    ensures Split("/" + a + "/" + b, '/') == ["", a, b]
  {
    assert "/" + a + "/" + b == "" + ['/'] + (a + ['/'] + b);
    SplitAtMark("", '/', a + ['/'] + b);
    SplitAtMark(a, '/', b);
  }

  lemma PiecesOfFour(a: string, b: string, c: string)
    requires '/' !in a && '/' !in b && '/' !in c
    ensures Split("/" + a + "/" + b + "/" + c, '/') == ["", a, b, c]
  {
    var rest := a + ['/'] + (b + ['/'] + c);
    RegroupFour(a, b, c);
    SplitAtMark("", '/', rest);
    PiecesAfterMark(a, b, c);
    ConsOntoThree("", a, b, c);
  }

  lemma RegroupFour(a: string, b: string, c: string)
    ensures "/" + a + "/" + b + "/" + c == "" + ['/'] + (a + ['/'] + (b + ['/'] + c))
  {
  }

  lemma PiecesAfterMark(a: string, b: string, c: string)
    requires '/' !in a && '/' !in b && '/' !in c
    ensures Split(a + ['/'] + (b + ['/'] + c), '/') == [a, b, c]
  {
    SplitAtMark(a, '/', b + ['/'] + c);
    SplitAtMark(b, '/', c);
    assert Split(c, '/') == [c];
    ConsOntoTwo(a, b, c);
  }

  lemma ConsOntoTwo<T>(x: T, a: T, b: T)
    ensures [x] + ([a] + [b]) == [x, a, b]
  {
  }

  lemma ConsOntoThree<T>(x: T, a: T, b: T, c: T)
    ensures [x] + [a, b, c] == [x, a, b, c]
  {
  }

  lemma PiecesOfTwo(a: string)
    requires '/' !in a
    ensures Split("/" + a, '/') == ["", a]
  {
    assert "/" + a == "" + ['/'] + a;
    SplitAtMark("", '/', a);
  }

  lemma LoginRoutePieces()
    ensures Split("/auth/login", '/') == ["", "auth", "login"]
  {
    assert Join(["login"], "/") == "login";
    assert Join(["auth", "login"], "/") == "auth" + "/" + "login";
    assert Join(["", "auth", "login"], "/") == "" + "/" + "auth/login";
    SplitOfJoin(["", "auth", "login"], '/');
  }

  lemma VerifyRoutePieces()
    ensures Split("/auth/verify", '/') == ["", "auth", "verify"]
  {
    assert Join(["verify"], "/") == "verify";
    assert Join(["auth", "verify"], "/") == "auth" + "/" + "verify";
    assert Join(["", "auth", "verify"], "/") == "" + "/" + "auth/verify";
    SplitOfJoin(["", "auth", "verify"], '/');
  }

  lemma UploadRoutePieces()
    ensures Split("/upload", '/') == ["", "upload"]
  {
    assert Join(["upload"], "/") == "upload";
    assert Join(["", "upload"], "/") == "" + "/" + "upload";
    SplitOfJoin(["", "upload"], '/');
  }

  lemma PostsRoutePieces()
    ensures Split("/posts", '/') == ["", "posts"]
  {
    assert Join(["posts"], "/") == "posts";
    assert Join(["", "posts"], "/") == "" + "/" + "posts";
    SplitOfJoin(["", "posts"], '/');
  }

  lemma PostByIdRoutePieces()
    ensures Split("/posts/{post_id}", '/') == ["", "posts", "{post_id}"]
  {
    assert Join(["{post_id}"], "/") == "{post_id}";
    assert Join(["posts", "{post_id}"], "/") == "posts" + "/" + "{post_id}";
    assert Join(["", "posts", "{post_id}"], "/") == "" + "/" + "posts/{post_id}";
    SplitOfJoin(["", "posts", "{post_id}"], '/');
  }

  lemma UserPostsRoutePieces()
    ensures Split("/posts/user/{user_id}", '/') == ["", "posts", "user", "{user_id}"]
  {
    assert Join(["{user_id}"], "/") == "{user_id}";
    assert Join(["user", "{user_id}"], "/") == "user" + "/" + "{user_id}";
    assert Join(["posts", "user", "{user_id}"], "/") == "posts" + "/" + "user/{user_id}";
    assert Join(["", "posts", "user", "{user_id}"], "/") == "" + "/" + "posts/user/{user_id}";
    SplitOfJoin(["", "posts", "user", "{user_id}"], '/');
  }

  lemma LoginTemplate()
    ensures ParseTemplate("/auth/login") == [Literal(""), Literal("auth"), Literal("login")]
  {
    LoginRoutePieces();
    TemplateOfThree("/auth/login", "auth", "login");
  }

  lemma VerifyTemplate()
    ensures ParseTemplate("/auth/verify") == [Literal(""), Literal("auth"), Literal("verify")]
  {
    VerifyRoutePieces();
    TemplateOfThree("/auth/verify", "auth", "verify");
  }

  lemma UploadTemplate()
    ensures ParseTemplate("/upload") == [Literal(""), Literal("upload")]
  {
    UploadRoutePieces();
    TemplateOfTwo("/upload", "upload");
  }

  lemma PostsTemplate()
    ensures ParseTemplate("/posts") == [Literal(""), Literal("posts")]
  {
    PostsRoutePieces();
    TemplateOfTwo("/posts", "posts");
  }

  lemma PostByIdTemplate()
    ensures ParseTemplate("/posts/{post_id}") == [Literal(""), Literal("posts"), Param]
  {
    PostByIdRoutePieces();
    TemplateOfThree("/posts/{post_id}", "posts", "{post_id}");
  }

  lemma UserPostsTemplate()
    ensures ParseTemplate("/posts/user/{user_id}") == [Literal(""), Literal("posts"), Literal("user"), Param]
  {
    UserPostsRoutePieces();
    TemplateOfFour("/posts/user/{user_id}", "posts", "user", "{user_id}");
  }

  lemma CompileThree(a: string, b: string, c: string)
    ensures Compile([a, b, c]) == [ParseTemplate(a), ParseTemplate(b), ParseTemplate(c)]
  {
  }

  /** The routers `ExcludedPaths::new` builds, segment by segment. */
  lemma PostTemplates()
    ensures Standard().post == POST_TEMPLATES
  {
    CompileThree("/auth/login", "/auth/verify", "/upload");
    LoginTemplate();
    VerifyTemplate();
    UploadTemplate();
  }

  lemma GetTemplates()
    ensures Standard().get == GET_TEMPLATES
  {
    CompileThree("/posts", "/posts/{post_id}", "/posts/user/{user_id}");
    PostsTemplate();
    PostByIdTemplate();
    UserPostsTemplate();
  }

  /** A template of fixed pieces matches exactly the route it was read from. */
  lemma FixedThreeMatches(route: string, a: string, b: string, path: string)
    requires Split(route, '/') == ["", a, b]
    ensures TemplateMatches([Literal(""), Literal(a), Literal(b)], path) <==> path == route
  {
    if TemplateMatches([Literal(""), Literal(a), Literal(b)], path) {
      var ps := Split(path, '/');
      assert ps == [ps[0], ps[1], ps[2]];
      SplitInjective(path, route, '/');
    }
  }

  lemma FixedTwoMatches(route: string, a: string, path: string)
    requires Split(route, '/') == ["", a]
    ensures TemplateMatches([Literal(""), Literal(a)], path) <==> path == route
  {
    if TemplateMatches([Literal(""), Literal(a)], path) {
      var ps := Split(path, '/');
      assert ps == [ps[0], ps[1]];
      SplitInjective(path, route, '/');
    }
  }

  const POST_TEMPLATES: seq<Template> := [[Literal(""), Literal("auth"), Literal("login")],
                                          [Literal(""), Literal("auth"), Literal("verify")],
                                          [Literal(""), Literal("upload")]]
  const GET_TEMPLATES: seq<Template> := [[Literal(""), Literal("posts")],
                                         [Literal(""), Literal("posts"), Param],
                                         [Literal(""), Literal("posts"), Literal("user"), Param]]

  lemma AtThree(t0: Template, t1: Template, t2: Template, path: string)
    ensures At([t0, t1, t2], path) <==> TemplateMatches(t0, path) || TemplateMatches(t1, path) || TemplateMatches(t2, path)
  {
    var r := [t0, t1, t2];
    assert r[1..] == [t1, t2] && r[1..][1..] == [t2] && r[1..][1..][1..] == [];
    assert At([t2], path) == (TemplateMatches(t2, path) || At([], path));
    assert At([t1, t2], path) == (TemplateMatches(t1, path) || At([t2], path));
    assert At(r, path) == (TemplateMatches(t0, path) || At([t1, t2], path));
  }

  lemma LoginMatches(path: string)
    ensures TemplateMatches(POST_TEMPLATES[0], path) <==> path == "/auth/login"
  {
    LoginRoutePieces();
    FixedThreeMatches("/auth/login", "auth", "login", path);
  }

  lemma VerifyMatches(path: string)
    ensures TemplateMatches(POST_TEMPLATES[1], path) <==> path == "/auth/verify"
  {
    VerifyRoutePieces();
    FixedThreeMatches("/auth/verify", "auth", "verify", path);
  }

  lemma UploadMatches(path: string)
    ensures TemplateMatches(POST_TEMPLATES[2], path) <==> path == "/upload"
  {
    UploadRoutePieces();
    FixedTwoMatches("/upload", "upload", path);
  }

  lemma PostRouterMatches(path: string)
    ensures At(POST_TEMPLATES, path) <==> path == "/auth/login" || path == "/auth/verify" || path == "/upload"
  {
    AtThree(POST_TEMPLATES[0], POST_TEMPLATES[1], POST_TEMPLATES[2], path);
    LoginMatches(path);
    VerifyMatches(path);
    UploadMatches(path);
  }

  /** Without a token, POST is let through on exactly the three public routes. */
  lemma PostExclusions(path: string)
    ensures IsExcluded(Standard(), POST, path) <==>
              path == "/auth/login" || path == "/auth/verify" || path == "/upload"
  {
    PostTemplates();
    PostRouterMatches(path);
  }

  lemma PostsListMatches(path: string)
    ensures TemplateMatches(GET_TEMPLATES[0], path) <==> path == "/posts"
  {
    PostsRoutePieces();
    FixedTwoMatches("/posts", "posts", path);
  }

  lemma PostByIdMatches(id: string)
    requires id != [] && '/' !in id
    ensures TemplateMatches(GET_TEMPLATES[1], "/posts/" + id)
  {
    PiecesOfThree("posts", id);
    assert "/" + "posts" + "/" + id == "/posts/" + id;
  }

  lemma UserPostsMatches(id: string)
    requires id != [] && '/' !in id
    ensures TemplateMatches(GET_TEMPLATES[2], "/posts/user/" + id)
  {
    JoinUserPosts(id);
    PiecesOf("/posts/user/" + id, ["", "posts", "user", id]);
  }

  lemma JoinUserPosts(id: string)
    ensures Join(["", "posts", "user", id], "/") == "/posts/user/" + id
  {
    var ps := ["", "posts", "user", id];
    assert Join(ps[3..], "/") == id;
    assert Join(ps[2..], "/") == "user/" + id;
    assert Join(ps[1..], "/") == "posts/user/" + id;
  }

  /** Reading posts is public: the list, one post by id, and one user's posts. */
  lemma PublicPostReads(id: string)
    requires id != [] && '/' !in id
    ensures IsExcluded(Standard(), GET, "/posts")
    ensures IsExcluded(Standard(), GET, "/posts/" + id)
    ensures IsExcluded(Standard(), GET, "/posts/user/" + id)
  {
    GetTemplates();
    var t := GET_TEMPLATES;
    AtThree(t[0], t[1], t[2], "/posts");
    AtThree(t[0], t[1], t[2], "/posts/" + id);
    AtThree(t[0], t[1], t[2], "/posts/user/" + id);
    PostsListMatches("/posts");
    PostByIdMatches(id);
    UserPostsMatches(id);
  }

  lemma {:induction false} PostByIdOnly(path: string)
    requires TemplateMatches(GET_TEMPLATES[1], path)
    ensures var id := Split(path, '/')[2]; id != [] && '/' !in id && path == "/posts/" + id
  {
    var ps := Split(path, '/');
    JoinOfSplit(path, '/');
    assert ps == ["", "posts", ps[2]];
    assert Join(ps[2..], "/") == ps[2];
    assert Join(ps[1..], "/") == "posts" + "/" + ps[2];
    assert Join(ps, "/") == "" + "/" + ("posts" + "/" + ps[2]);
  }

  lemma {:induction false} UserPostsOnly(path: string)
    requires TemplateMatches(GET_TEMPLATES[2], path)
    ensures var id := Split(path, '/')[3]; id != [] && '/' !in id && path == "/posts/user/" + id
  {
    var ps := Split(path, '/');
    var t := GET_TEMPLATES[2];
    assert |ps| == 4;
    assert SegmentMatches(t[0], ps[0]) && SegmentMatches(t[1], ps[1]);
    assert SegmentMatches(t[2], ps[2]) && SegmentMatches(t[3], ps[3]);
    var id := ps[3];
    assert ps[0] == "" && ps[1] == "posts" && ps[2] == "user";
    JoinOfSplit(path, '/');
    assert ps == ["", "posts", "user", id];
    JoinUserPosts(id);
  }

  /** And nothing else is: any other GET path needs a token. */
  lemma GetExclusionsOnly(path: string)
    requires IsExcluded(Standard(), GET, path)
    ensures path == "/posts" ||
            exists id :: id != [] && '/' !in id && (path == "/posts/" + id || path == "/posts/user/" + id)
  {
    GetTemplates();
    var t := GET_TEMPLATES;
    AtThree(t[0], t[1], t[2], path);
    PostsListMatches(path);
    if TemplateMatches(t[1], path) {
      PostByIdOnly(path);
    } else if TemplateMatches(t[2], path) {
      UserPostsOnly(path);
    }
  }

  /** A trailing slash is a different route: neither is let through without a token. */
  lemma TrailingSlashNotExcluded()
    ensures !IsExcluded(Standard(), GET, "/posts/")
    ensures !IsExcluded(Standard(), POST, "/auth/login/")
  {
    if IsExcluded(Standard(), GET, "/posts/") {
      GetExclusionsOnly("/posts/");
      assert false;
    }
    PostExclusions("/auth/login/");
  }

  /** PUT, PATCH, DELETE and any other method always need a token. */
  lemma OtherMethodsNeedToken(verb: Method, path: string)
    requires !verb.GET? && !verb.POST?
    ensures !IsExcluded(Standard(), verb, path)
  {
  }

  /** A request the gate does not bypass and that carries no usable bearer token is
      answered 401 "Unauthorized", whatever the validator would have said. */
  lemma MissingTokenRejected(layer: AuthLayer, verb: Method, path: string, authorization: Option<string>,
                             validate: string -> Result<string, string>)
    requires !IsExcluded(layer.excluded, verb, path)
    requires authorization.None? || ' ' !in authorization.value
    ensures Decide(layer, verb, path, authorization, validate) == Reject(UNAUTHORIZED_MESSAGE)
  {
    BearerTokenFound(authorization);
  }
}
