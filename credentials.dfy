/**
 * The `/api/token` handler: a fixed client id and secret are exchanged for a
 * signed token. Minting and signing the token is library code; the model
 * takes the serialized token it would produce as the parameter `minted`.
 */
module Credentials {
  import opened Wrappers

  const ClientId: string := "sampleClientId"
  const ClientSecret: string := "sampleClientSecret"
  const InvalidCredentials: string := "Invalid client credentials."

  /** The handler's answer: the token text with 200, or a status and a plain-text message. */
  datatype TokenOutcome = Issued(token: string) | Denied(status: int, msg: string)

  /**
   * Compares the `clientId` and `clientSecret` form fields (absent when the
   * form does not carry them) with the hard-coded pair, exactly and
   * case-sensitively; any mismatch is a 400 and no token is minted.
   */
  function IssueToken(providedId: Option<string>, providedSecret: Option<string>, minted: string): (r: TokenOutcome)
    ensures r.Issued? ==> r.token == minted
    ensures r.Denied? ==> r == Denied(400, InvalidCredentials)
  {
    if providedId != Some(ClientId) || providedSecret != Some(ClientSecret) then
      Denied(400, InvalidCredentials)
    else
      Issued(minted)
  }

  /** A token is issued exactly for the one hard-coded pair, whatever the token would be. */
  lemma IssuedOnlyForThePair(providedId: Option<string>, providedSecret: Option<string>, minted: string)
    ensures IssueToken(providedId, providedSecret, minted).Issued? <==>
      providedId == Some("sampleClientId") && providedSecret == Some("sampleClientSecret")
  {
  }

  /** One wrong or missing field is enough for a refusal, whatever the other field holds. */
  lemma EitherMismatchDenies(providedId: Option<string>, providedSecret: Option<string>, minted: string)
    requires providedId != Some(ClientId) || providedSecret != Some(ClientSecret)
    ensures IssueToken(providedId, providedSecret, minted) == Denied(400, InvalidCredentials)
    ensures IssueToken(providedId, None, minted) == Denied(400, InvalidCredentials)
    ensures IssueToken(None, providedSecret, minted) == Denied(400, InvalidCredentials)
  {
  }

  /**
   * Unlike the Operation header, credentials are compared case-sensitively:
   * another letter case of a correct field is refused.
   */
  lemma CredentialsCaseSensitive(minted: string)
    ensures IssueToken(Some("sampleclientid"), Some(ClientSecret), minted).Denied?
    ensures IssueToken(Some(ClientId), Some("SampleClientSecret"), minted).Denied?
  {
  }
}
