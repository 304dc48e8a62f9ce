/**
 * The custom middleware that runs before every endpoint: requests under the
 * token path pass through; every other request needs an authenticated user,
 * or it is answered 401 and the endpoint never runs. Whether the bearer token
 * verified (signature, expiry) is decided by library code and enters the
 * model as the identity's `isAuthenticated` flag.
 */
module AuthGate {
  import opened Wrappers
  import opened Ascii

  const TokenPath: string := "/api/token"

  /** The user's identity as the authentication layer left it; `None` is a null identity. */
  datatype Identity = Identity(isAuthenticated: bool)

  /** Either the next component runs, or the response is finished with a status code. */
  datatype GateDecision = Proceed | ShortCircuit(status: int)

  /**
   * Path-segment prefix test, ignoring the case of ASCII letters: `path`
   * begins with `other`, and the match ends at the end of `path` or at a '/'.
   */
  predicate StartsWithSegments(path: string, other: string) {
    |other| <= |path| && Lower(path[..|other|]) == Lower(other)
    && (|path| == |other| || path[|other|] == '/')
  }

  predicate IsAuthenticated(identity: Option<Identity>) {
    identity.Some? && identity.value.isAuthenticated
  }

  /** The middleware's decision for one request. */
  function Gate(path: string, identity: Option<Identity>): (d: GateDecision)
    ensures d.ShortCircuit? ==> d.status == 401
    ensures d.ShortCircuit? ==> !IsAuthenticated(identity)
  {
    if !StartsWithSegments(path, TokenPath) && (identity.None? || !identity.value.isAuthenticated) then
      ShortCircuit(401)
    else
      Proceed
  }

  /** Without an authenticated user, every request outside the token path is answered 401. */
  lemma UnauthenticatedRejected(path: string, identity: Option<Identity>)
    requires !StartsWithSegments(path, TokenPath)
    ensures Gate(path, identity) == ShortCircuit(401) <==> !IsAuthenticated(identity)
  {
  }

  /**
   * The token path itself and everything below it pass through, in any
   * letter case, whatever the identity: "/api/token", "/API/Token/x".
   */
  lemma TokenSubtreeBypasses(prefix: string, rest: string, identity: Option<Identity>)
    requires Lower(prefix) == TokenPath
    requires rest == [] || rest[0] == '/'
    ensures Gate(prefix + rest, identity) == Proceed
  {
    assert (prefix + rest)[..|TokenPath|] == prefix;
    if rest != [] {
      assert (prefix + rest)[|TokenPath|] == rest[0];
    }
  }

  /**
   * A path that continues the last segment of the token path, like
   * "/api/tokens", is not under it and needs authentication.
   */
  lemma SiblingSegmentNeedsAuthentication(c: char, rest: string, identity: Option<Identity>)
    requires c != '/'
    requires !IsAuthenticated(identity)
    ensures Gate(TokenPath + [c] + rest, identity) == ShortCircuit(401)
  {
    assert (TokenPath + [c] + rest)[|TokenPath|] == c;
  }

  /** Whether the gate lets a request through depends on its path only up to letter case. */
  lemma GateCaseInsensitive(p1: string, p2: string, identity: Option<Identity>)
    requires Lower(p1) == Lower(p2)
    ensures Gate(p1, identity) == Gate(p2, identity)
  {
    var n := |TokenPath|;
    if n <= |p1| {
      LowerPrefix(p1, n);
      LowerPrefix(p2, n);
      if n < |p1| {
        assert LowerChar(p1[n]) == LowerChar(p2[n]);
      }
    }
  }

  /** The token path and a path below it pass through without authentication. */
  lemma TokenPathExamples(identity: Option<Identity>)
    ensures Gate("/api/token", identity) == Proceed
    ensures Gate("/api/token/x", identity) == Proceed
  {
    LowerOfLowerCase(TokenPath);
    TokenSubtreeBypasses(TokenPath, "", identity);
    TokenSubtreeBypasses(TokenPath, "/x", identity);
  }

  /** A sibling of the token path and the calculator path need authentication. */
  lemma ProtectedPathExamples(identity: Option<Identity>)
    requires !IsAuthenticated(identity)
    ensures Gate("/api/tokens", identity) == ShortCircuit(401)
    ensures Gate("/api/calculate", identity) == ShortCircuit(401)
  {
    SiblingSegmentNeedsAuthentication('s', "", identity);
    assert "/api/calculate"[..|TokenPath|] == "/api/calcu";
    LowerOfLowerCase("/api/calcu");
  }
}
