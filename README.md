# CalculatorAPI request decisions, in Dafny

A model of the decision logic of the CalculatorAPI minimal web service
(`CalculatorAPI/Program.cs`):

- the `/api/calculate` handler, which reads the `Operation` header,
  lower-cases it, and adds, subtracts, multiplies or divides the two operands
  of the request body; it answers 400 for a missing or empty header, for an
  unknown operation name, and for a division by zero (`calculator.dfy`);
- the `/api/token` handler, which compares the `clientId` and `clientSecret`
  form fields with the hard-coded pair `sampleClientId` / `sampleClientSecret`
  and answers 400 "Invalid client credentials." on any mismatch
  (`credentials.dfy`);
- the custom middleware that lets requests under the `/api/token` path
  segment through and answers 401 to every other request that reaches it
  whose user is not authenticated (`auth_gate.dfy`);
- one request through the whole application: gate first, then the endpoint
  whose route matches (`pipeline.dfy`);
- ASCII lower-casing, which both the header dispatch and the path comparison
  rely on (`ascii.dfy`), and an `Option` type (`wrappers.dfy`).

Everything is modelled as pure functions over values: the handlers keep no
state between requests, and the signing key is never written after start-up.

Modelling assumptions:

- Operands and results are exact `real`s, not IEEE doubles.
- `ToLower()` is modelled as ASCII lower-casing.
- `PathString.StartsWithSegments` is modelled as a prefix test that ignores
  the case of ASCII letters and must end at the end of the path or at a `/`.
  This is the framework's default comparison; its code is not part of this
  model.
- Route matching is framework behaviour too. It is modelled as equality of
  the whole path with the route template, ignoring ASCII letter case, and an
  unmatched path gets 404.
- Whether the bearer token verified is decided by library code. It enters the
  model as the identity's `isAuthenticated` flag, or as no identity at all.
  The token text that would be minted enters as a parameter.

The gate's bypass is a path-segment prefix test (`CalculatorAPI/Program.cs:82`),
so `/api/token/x` also bypasses it (`AuthGate.TokenSubtreeBypasses`).
The test at `CalculatorApi.Tests/CalculatorTests.cs:22-33` expects 401 for a
body-less POST to `/api/token`. That path bypasses the gate, so the 401 cannot
come from the gate. The model does not state it.

## Model

| member | source | states |
|---|---|---|
| `Calculator.Calculate` | CalculatorAPI/Program.cs:122-163 | every rejection is a 400; a missing or empty header is always a rejection |
| `Calculator.Select` | CalculatorAPI/Program.cs:133-160 | a selected operation's name equals the lower-cased header; no selection means the lower-cased header is none of the four names |
| `Calculator.NamesDistinct` | CalculatorAPI/Program.cs:136-147 | the four case labels are distinct, so the switch selects at most one operation |
| `Calculator.SelectBySpelling` | CalculatorAPI/Program.cs:133-147 | a header selects an operation exactly when it spells that operation's name with each letter in either case |
| `Calculator.MissingHeaderRejected` | CalculatorAPI/Program.cs:125-131 | a missing or empty header gives 400 "Operation header is missing." for all operands |
| `Calculator.CaseInsensitive` | CalculatorAPI/Program.cs:133-136 | headers equal after lower-casing give identical outcomes |
| `Calculator.ArithmeticAlwaysSucceeds` | CalculatorAPI/Program.cs:138-146 | add, subtract and multiply, in any letter case, succeed with a+b, a-b, a*b for every b, zero included |
| `Calculator.DivideGuard` | CalculatorAPI/Program.cs:147-155 | divide with b = 0 gives 400 "Cannot divide by zero." for every a; otherwise it gives a/b |
| `Calculator.UnknownOperationRejected` | CalculatorAPI/Program.cs:156-159 | a non-empty header naming none of the four operations gives 400 "Invalid operation." |
| `Calculator.Classification` | CalculatorAPI/Program.cs:126-162 | success exactly when the header names an operation and it is not a division by zero; every failure is one of the three 400 messages; the missing-header and divide-by-zero errors each occur exactly in their own case |
| `Calculator.AddSubtractExamples` | CalculatorApi.Tests/CalculatorTests.cs:74-90 | add(10, 5) = 15 and subtract(10, 5) = 5 |
| `Calculator.MultiplyDivideExamples` | CalculatorAPI/Program.cs:144-155 | multiply(10, 5) = 50, divide(10, 5) = 2, divide(10, 0) is refused |
| `Calculator.SpellingExamples` | CalculatorAPI/Program.cs:133-159 | "ADD" and "Add" add like "add"; "modulo" is an invalid operation |
| `Ascii.Lower` | CalculatorAPI/Program.cs:133 | the result has the input's length, each character is the lower-case form of the input's, and none is upper-case |
| `Ascii.LowerIdempotent` | CalculatorAPI/Program.cs:133 | lower-casing twice is lower-casing once |
| `Ascii.LowerPrefix` | CalculatorAPI/Program.cs:82 | lower-casing a prefix is the prefix of the lower-cased string |
| `Ascii.LowerMatchesWord` | CalculatorAPI/Program.cs:133-136 | a string lower-cases to a word without capitals exactly when it is a case variant of that word |
| `Credentials.IssueToken` | CalculatorAPI/Program.cs:94-118 | an issued token is the one minted; any refusal is 400 "Invalid client credentials." |
| `Credentials.IssuedOnlyForThePair` | CalculatorAPI/Program.cs:96-103 | a token is issued exactly when the id is "sampleClientId" and the secret is "sampleClientSecret" |
| `Credentials.EitherMismatchDenies` | CalculatorAPI/Program.cs:103-107 | one wrong or missing field gives 400, whatever the other field holds |
| `Credentials.CredentialsCaseSensitive` | CalculatorAPI/Program.cs:103 | another letter case of a correct field is refused |
| `AuthGate.Gate` | CalculatorAPI/Program.cs:80-91 | a short-circuit is always 401, and only for a request without an authenticated user |
| `AuthGate.UnauthenticatedRejected` | CalculatorAPI/Program.cs:82-88 | outside the token path, the gate answers 401 exactly when the user is not authenticated |
| `AuthGate.TokenSubtreeBypasses` | CalculatorAPI/Program.cs:82 | the token path and every path below it, in any letter case, proceed whatever the identity |
| `AuthGate.SiblingSegmentNeedsAuthentication` | CalculatorAPI/Program.cs:82-88 | a path that continues the token path's last segment (such as "/api/tokens") gets 401 without authentication |
| `AuthGate.GateCaseInsensitive` | CalculatorAPI/Program.cs:82 | paths equal after lower-casing get the same decision |
| `AuthGate.TokenPathExamples` | CalculatorAPI/Program.cs:82-90 | "/api/token" and "/api/token/x" proceed |
| `AuthGate.ProtectedPathExamples` | CalculatorAPI/Program.cs:82-88 | "/api/tokens" and "/api/calculate" get 401 without authentication |
| `Pipeline.Serve` | CalculatorAPI/Program.cs:80-163 | the status is one of 200, 400, 401, 404; it is 401 exactly when the gate short-circuits, so no handler ever answers 401 |
| `Pipeline.CalculatePathIsProtected` | CalculatorAPI/Program.cs:82 | no spelling of the calculator path lies under the token path |
| `Pipeline.UnauthenticatedGets401` | CalculatorAPI/Program.cs:80-91 | without an authenticated user, every POST request outside the token path gets 401 with no body, whatever it carries |
| `Pipeline.CalculatorRequiresAuthentication` | CalculatorAPI/Program.cs:82-88 | the calculator is never reached without an authenticated user |
| `Pipeline.AuthenticatedCalculation` | CalculatorAPI/Program.cs:122-163 | with an authenticated user, a calculator request is answered by the handler's outcome |
| `Pipeline.TokenEndpointIgnoresIdentity` | CalculatorAPI/Program.cs:82-108 | the token endpoint answers from the form fields alone, with 200 exactly for the right pair |
| `Pipeline.UnauthenticatedSuccessIsATokenRequest` | CalculatorAPI/Program.cs:80-118 | the only 200 an unauthenticated client can get with a POST request is the minted token, from under the token path |

## Left out

- JWT signing, validation and expiry (`CalculatorAPI/Program.cs:12-24`, `111-118`, `169-173`): library code. "Authenticated" and the minted token are inputs. The 10-minute lifetime and the library's clock skew are not modelled.
- The random signing key generated once per process: it is only used by the token library.
- IEEE double behaviour: NaN, infinities, rounding, and -0.0 (which the `Number2 == 0` guard also catches).
- Culture-sensitive `ToLower()` and case-insensitive comparison beyond ASCII letters.
- A header or form field with several values: the model reads one optional string.
- Binding the JSON body to `CalculatorRequest`, reading the form, and failures of either. Those are framework I/O; the operands and form fields are inputs. `CalculatorRequest` is not part of this model.
- HTTP methods other than POST, trailing-slash tolerance in route matching, and response writing.
- The Swagger middleware (`CalculatorAPI/Program.cs:69-73`): it is registered before the gate and answers GET requests for `/swagger/v1/swagger.json` and the Swagger UI pages with 200, without authentication and without reaching the gate. The model covers POST requests only, so its "every other request gets 401" lemmas are about POST requests.
- Dependency-injection wiring, the framework's own authorization middleware, and `CalculatorAPI/HeaderOperationFilter.cs`: configuration and documentation with no decisions of their own.
