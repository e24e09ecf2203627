/**
 * The identity provider's token endpoint, as the authenticator sees it through its HTTP
 * client: it logs every request it receives and answers with `reply`, an oracle the
 * environment sets.
 */
module IdentityProvider {
  import opened Wrappers

  /** A token request: endpoint path and the form parameters of the grant. */
  datatype TokenRequest = TokenRequest(
    endpoint: string, grantType: string, clientId: string, scope: string, clientSecret: string)

  /**
   * The endpoint's answer: a transport failure, or the two fields read from the decoded
   * JSON body (None when a field is missing; a body that is not JSON decodes to no fields).
   */
  datatype TokenReply = Unreachable | Body(accessToken: Option<string>, expiresIn: Option<int>)

  class TokenEndpoint {
    var reply: TokenReply
    var requests: seq<TokenRequest>

    constructor(reply: TokenReply)
      ensures this.reply == reply && requests == []
    {
      this.reply := reply;
      requests := [];
    }

    method Request(req: TokenRequest) returns (r: TokenReply)
      modifies this`requests
      ensures requests == old(requests) + [req]
      ensures r == reply
    {
      requests := requests + [req];
      r := reply;
    }
  }
}
