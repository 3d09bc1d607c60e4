/** The authentication gate of the older (`ctx`) generation: the same gate as the `core` one,
    except that excluded paths are compared as whole strings and only three POST routes are
    excluded. The 401 it answers is the two-member envelope of that generation. */
module CtxAuthLayer {
  import opened Wrappers
  import opened Http
  import ModelsError
  import CoreAuthLayer

  datatype ExcludedPaths = ExcludedPaths(
    post: set<string>, get: set<string>, put: set<string>, patch: set<string>, delete: set<string>)

  /** `ExcludedPaths::default()`: nothing is excluded. */
  const NO_EXCLUSIONS: ExcludedPaths := ExcludedPaths({}, {}, {}, {}, {})

  /** `ExcludedPaths::new`. */
  const STANDARD: ExcludedPaths := ExcludedPaths({"/auth/login", "/auth/verify", "/upload"}, {}, {}, {}, {})

  datatype AuthLayer = AuthLayer(excluded: ExcludedPaths)

  /** `AuthLayer::new`: a gate with no exclusions. */
  function NewLayer(): (l: AuthLayer)
    ensures forall m, p :: !IsExcluded(l.excluded, m, p)
  {
    AuthLayer(NO_EXCLUSIONS)
  }

  /** `AuthLayer::except`. */
  function Except(layer: AuthLayer, excluded: ExcludedPaths): (l: AuthLayer)
    ensures forall m, p :: IsExcluded(l.excluded, m, p) == IsExcluded(excluded, m, p)
  {
    AuthLayer(excluded)
  }

  /** The exclusion test of `call`: exact membership in the set of the request's method. */
  function IsExcluded(e: ExcludedPaths, verb: Method, path: string): bool {
    match verb
    case GET => path in e.get
    case POST => path in e.post
    case PUT => path in e.put
    case PATCH => path in e.patch
    case DELETE => path in e.delete
    case Other(_) => false
  }

  function Decide(layer: AuthLayer, verb: Method, path: string, authorization: Option<string>,
                  validate: string -> Result<string, string>): (d: CoreAuthLayer.Decision)
    ensures d.Bypass? <==> IsExcluded(layer.excluded, verb, path)
    ensures d.Admit? ==> CoreAuthLayer.AuthorizeUser(authorization, validate) == Success(d.userId)
    ensures d.Reject? ==> CoreAuthLayer.AuthorizeUser(authorization, validate) == Failure(d.message)
  {
    if IsExcluded(layer.excluded, verb, path) then CoreAuthLayer.Bypass
    else match CoreAuthLayer.AuthorizeUser(authorization, validate)
      case Success(userId) => CoreAuthLayer.Admit(userId)
      case Failure(message) => CoreAuthLayer.Reject(message)
  }

  /** `AuthLayerService::call`. */
  method Call(layer: AuthLayer, req: Request, validate: string -> Result<string, string>) returns (outcome: CoreAuthLayer.GateOutcome)
    modifies req
    ensures var d := Decide(layer, req.verb, req.path, req.authorization, validate);
            (d.Bypass? ==> outcome == CoreAuthLayer.Forwarded && req.authUser == old(req.authUser)) &&
            (d.Admit? ==> outcome == CoreAuthLayer.Forwarded && req.authUser == Some(d.userId)) &&
            (d.Reject? ==> outcome == CoreAuthLayer.Responded(ModelsError.IntoResponse(ModelsError.New(UNAUTHORIZED, d.message))) &&
                           req.authUser == old(req.authUser))
  {
    var excluded := IsExcluded(layer.excluded, req.verb, req.path);
    if excluded {
      return CoreAuthLayer.Forwarded;
    }
    var userId := CoreAuthLayer.AuthorizeUser(req.authorization, validate);
    if userId.Failure? {
      return CoreAuthLayer.Responded(ModelsError.IntoResponse(ModelsError.New(UNAUTHORIZED, userId.error)));
    }
    req.authUser := Some(userId.value);
    outcome := CoreAuthLayer.Forwarded;
  }

  /** Both generations let the same POST requests through without a token. */
  lemma SamePostExclusions(path: string)
    ensures IsExcluded(STANDARD, POST, path) == CoreAuthLayer.IsExcluded(CoreAuthLayer.Standard(), POST, path)
  {
    PostExclusions(path);
    CoreAuthLayer.PostExclusions(path);
  }

  /** POST is let through on exactly the three public routes. */
  lemma PostExclusions(path: string)
    ensures IsExcluded(STANDARD, POST, path) <==> path == "/auth/login" || path == "/auth/verify" || path == "/upload"
  {
  }

  /** Only the newer generation makes reading posts public: here every GET needs a token. */
  lemma PostReadsNeedToken(id: string)
    requires id != [] && '/' !in id
    ensures !IsExcluded(STANDARD, GET, "/posts/" + id)
    ensures CoreAuthLayer.IsExcluded(CoreAuthLayer.Standard(), GET, "/posts/" + id)
  {
    CoreAuthLayer.PublicPostReads(id);
  }

  /** Paths are compared whole: a trailing slash is not excluded. */
  lemma ExactPathsOnly()
    ensures IsExcluded(STANDARD, POST, "/auth/login")
    ensures !IsExcluded(STANDARD, POST, "/auth/login/")
  {
    assert "/auth/login/" != "/auth/verify" && "/auth/login/" != "/upload" && "/auth/login/" != "/auth/login";
  }
}
