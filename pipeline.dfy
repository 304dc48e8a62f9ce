/**
 * One POST request through the application: the authentication gate first,
 * then the endpoint whose route matches the path. Route matching belongs to
 * the web framework; it is modelled as a comparison of the whole path with
 * the route template, ignoring the case of ASCII letters, and an unmatched
 * path is answered 404.
 */
module Pipeline {
  import opened Wrappers
  import opened Ascii
  import opened Calculator
  import opened Credentials
  import opened AuthGate

  const CalculatePath: string := "/api/calculate"

  /**
   * What the model reads from a request: its path, the identity the bearer
   * token produced, the Operation header, the two operands of the JSON body,
   * and the two form fields of the token request.
   */
  datatype Request = Request(
    path: string,
    identity: Option<Identity>,
    operation: Option<string>,
    number1: real,
    number2: real,
    clientId: Option<string>,
    clientSecret: Option<string>)

  datatype Body = NoBody | Text(text: string) | JsonResult(result: real)

  datatype Response = Response(status: int, body: Body)

  predicate RoutesTo(path: string, template: string) {
    Lower(path) == Lower(template)
  }

  function CalculateResponse(o: Outcome): Response {
    match o
    case Ok(x) => Response(200, JsonResult(x))
    case Err(status, msg) => Response(status, Text(msg))
  }

  function TokenResponse(o: TokenOutcome): Response {
    match o
    case Issued(token) => Response(200, Text(token))
    case Denied(status, msg) => Response(status, Text(msg))
  }

  /** The application's answer to one request; `minted` is the token the library would sign. */
  function Serve(req: Request, minted: string): (resp: Response)
    ensures resp.status in {200, 400, 401, 404}
    ensures resp.status == 401 <==> Gate(req.path, req.identity) == ShortCircuit(401)
  {
    match Gate(req.path, req.identity)
    case ShortCircuit(status) => Response(status, NoBody)
    case Proceed =>
      if RoutesTo(req.path, TokenPath) then
        TokenResponse(IssueToken(req.clientId, req.clientSecret, minted))
      else if RoutesTo(req.path, CalculatePath) then
        CalculateResponse(Calculate(req.operation, req.number1, req.number2))
      else
        Response(404, NoBody)
  }

  /** The calculator path never lies under the token path, in any letter case. */
  lemma CalculatePathIsProtected(path: string)
    requires RoutesTo(path, CalculatePath)
    ensures !StartsWithSegments(path, TokenPath)
  {
    LowerOfLowerCase(CalculatePath);
    var n := |TokenPath|;
    LowerPrefix(path, n);
    assert Lower(path)[..n] == "/api/calcu";
    LowerOfLowerCase(TokenPath);
  }

  /**
   * Without an authenticated user, every POST request outside the token path
   * is answered 401 with no body, whatever its headers and body hold.
   */
  lemma UnauthenticatedGets401(req: Request, minted: string)
    requires !StartsWithSegments(req.path, TokenPath)
    requires !IsAuthenticated(req.identity)
    ensures Serve(req, minted) == Response(401, NoBody)
  {
  }

  /** In particular, the calculator is never reached without an authenticated user. */
  lemma CalculatorRequiresAuthentication(req: Request, minted: string)
    requires RoutesTo(req.path, CalculatePath)
    requires !IsAuthenticated(req.identity)
    ensures Serve(req, minted) == Response(401, NoBody)
  {
    CalculatePathIsProtected(req.path);
  }

  /**
   * With an authenticated user, a calculator request is answered by the
   * handler: 200 with the result, or the handler's status and message.
   */
  lemma AuthenticatedCalculation(req: Request, minted: string)
    requires RoutesTo(req.path, CalculatePath)
    requires IsAuthenticated(req.identity)
    ensures Serve(req, minted) == CalculateResponse(Calculate(req.operation, req.number1, req.number2))
  {
    LowerOfLowerCase(CalculatePath);
    LowerOfLowerCase(TokenPath);
    assert Lower(req.path) != Lower(TokenPath) by {
      assert |Lower(req.path)| != |TokenPath|;
    }
  }

  /**
   * The token endpoint is reached whatever the identity, and answers from the
   * form fields alone: the token for the right pair, 400 otherwise.
   */
  lemma TokenEndpointIgnoresIdentity(req: Request, minted: string)
    requires RoutesTo(req.path, TokenPath)
    ensures Serve(req, minted) == TokenResponse(IssueToken(req.clientId, req.clientSecret, minted))
    ensures Serve(req, minted).status == 200 <==>
      req.clientId == Some(ClientId) && req.clientSecret == Some(ClientSecret)
  {
    LowerOfLowerCase(TokenPath);
    LowerPrefix(req.path, |TokenPath|);
    assert req.path[..|TokenPath|] == req.path;
  }

  /**
   * The only successful answer an unauthenticated client can obtain with a
   * POST request is a token, and only under the token path.
   */
  lemma UnauthenticatedSuccessIsATokenRequest(req: Request, minted: string)
    requires !IsAuthenticated(req.identity)
    requires Serve(req, minted).status == 200
    ensures StartsWithSegments(req.path, TokenPath)
    ensures Serve(req, minted) == Response(200, Text(minted))
  {
    if RoutesTo(req.path, CalculatePath) {
      CalculatePathIsProtected(req.path);
    }
  }
}
