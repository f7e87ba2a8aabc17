/** The three OAuth 2.0 bearer-token access methods of RFC 6750: the Authorization
    request header field (section 2.1), the form-encoded body parameter (section
    2.2) and the URI query parameter (section 2.3). */
module BearerToken {
  import opened Wrappers
  import opened Strings

  /** Query and form-encoded parameter name. */
  const PARAM_NAME := "access_token"

  /** Authorization header prefix. */
  const HEADER_PREFIX := "Bearer "

  datatype HttpMethod = Delete | Get | Head | Patch | Post | Put

  /** `IllegalArgumentException("HTTP GET method is not supported")`. */
  datatype Error = GetNotSupported

  /** The parts of an HTTP request the access methods touch. Parameter values are
      given by the strings their `toString()` returns. */
  class HttpRequest {
    const requestMethod: HttpMethod
    var authorization: Option<string>
    var formData: map<string, string>
    var urlParameters: map<string, string>

    constructor (requestMethod: HttpMethod, authorization: Option<string>,
                 formData: map<string, string>, urlParameters: map<string, string>)
      ensures this.requestMethod == requestMethod && this.authorization == authorization
      ensures this.formData == formData && this.urlParameters == urlParameters
    {
      this.requestMethod := requestMethod;
      this.authorization := authorization;
      this.formData := formData;
      this.urlParameters := urlParameters;
    }
  }

  /** The Authorization header value the header method sets. */
  function AuthorizationHeader(accessToken: string): (header: string)
    ensures StartsWith(header, HEADER_PREFIX)
    ensures header[|HEADER_PREFIX|..] == accessToken
  {
    HEADER_PREFIX + accessToken
  }

  /** The token carried by an Authorization header: the text after the exact,
      case-sensitive prefix "Bearer ", or none. */
  function TokenFromAuthorization(header: Option<string>): (token: Option<string>)
    ensures token.Some? <==> header.Some? && StartsWith(header.value, HEADER_PREFIX)
    ensures token.Some? ==> AuthorizationHeader(token.value) == header.value
  {
    if header.Some? && StartsWith(header.value, HEADER_PREFIX) then
      assert header.value == HEADER_PREFIX + header.value[|HEADER_PREFIX|..];
      Some(header.value[|HEADER_PREFIX|..])
    else None
  }

  /** Reading back the header that was set gives the token that was set. */
  lemma HeaderRoundTrip(accessToken: string)
    ensures TokenFromAuthorization(Some(AuthorizationHeader(accessToken))) == Some(accessToken)
  {
  }

  /** The prefix is matched case-sensitively. */
  lemma LowerCaseSchemeRejected(accessToken: string)
    ensures TokenFromAuthorization(Some("bearer " + accessToken)).None?
  {
    assert ("bearer " + accessToken)[0] != HEADER_PREFIX[0];
  }

  datatype AccessMethod =
    | AuthorizationHeaderAccessMethod
    | FormEncodedBodyAccessMethod
    | QueryParameterAccessMethod

  /** `getAccessTokenFromRequest`. */
  function GetAccessTokenFromRequest(accessMethod: AccessMethod, request: HttpRequest): (token: Option<string>)
    reads request
    ensures accessMethod.AuthorizationHeaderAccessMethod? ==> token == TokenFromAuthorization(request.authorization)
    ensures accessMethod.FormEncodedBodyAccessMethod? ==>
      (token.Some? <==> PARAM_NAME in request.formData) && (token.Some? ==> token.value == request.formData[PARAM_NAME])
    ensures accessMethod.QueryParameterAccessMethod? ==>
      (token.Some? <==> PARAM_NAME in request.urlParameters) && (token.Some? ==> token.value == request.urlParameters[PARAM_NAME])
  {
    match accessMethod
    case AuthorizationHeaderAccessMethod => TokenFromAuthorization(request.authorization)
    case FormEncodedBodyAccessMethod =>
      if PARAM_NAME in request.formData then Some(request.formData[PARAM_NAME]) else None
    case QueryParameterAccessMethod =>
      if PARAM_NAME in request.urlParameters then Some(request.urlParameters[PARAM_NAME]) else None
  }

  /** `intercept`: put the token into the request. The form-body method refuses a GET
      request and then changes nothing. */
  method Intercept(accessMethod: AccessMethod, request: HttpRequest, accessToken: string) returns (r: Outcome<Error>)
    modifies request
    ensures accessMethod.AuthorizationHeaderAccessMethod? ==>
      && r == Pass
      && request.authorization == Some(AuthorizationHeader(accessToken))
      && request.formData == old(request.formData) && request.urlParameters == old(request.urlParameters)
    ensures accessMethod.FormEncodedBodyAccessMethod? ==>
      && (r.Fail? <==> request.requestMethod == Get)
      && (r.Fail? ==> r.error == GetNotSupported && request.formData == old(request.formData))
      && (r.Pass? ==> request.formData == old(request.formData)[PARAM_NAME := accessToken])
      && request.authorization == old(request.authorization) && request.urlParameters == old(request.urlParameters)
    ensures accessMethod.QueryParameterAccessMethod? ==>
      && r == Pass
      && request.urlParameters == old(request.urlParameters)[PARAM_NAME := accessToken]
      && request.authorization == old(request.authorization) && request.formData == old(request.formData)
    ensures r.Pass? ==> GetAccessTokenFromRequest(accessMethod, request) == Some(accessToken)
  {
    match accessMethod
    case AuthorizationHeaderAccessMethod =>
      request.authorization := Some(HEADER_PREFIX + accessToken);
      HeaderRoundTrip(accessToken);
      r := Pass;
    case FormEncodedBodyAccessMethod =>
      if request.requestMethod == Get {
        return Fail(GetNotSupported);
      }
      request.formData := request.formData[PARAM_NAME := accessToken];
      r := Pass;
    case QueryParameterAccessMethod =>
      request.urlParameters := request.urlParameters[PARAM_NAME := accessToken];
      r := Pass;
  }
}
