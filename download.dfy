/** Fetching the bytes of an attachment (Dialogs/RootDialog.cs, `DownloadImage`,
    `HandleSkypeSecurityToken`, `GetTokenAsync`): a fresh HTTP client whose
    default headers get a bearer token and an octet-stream Accept header on the
    Skype channel only, then one GET whose outcome is an input of the model. */
module Download {
  import opened Outcomes

  /** The only channel whose attachment URLs need the bot's own token. */
  const SkypeChannel := "skype"
  const BearerScheme := "Bearer"
  const OctetStream := "application/octet-stream"

  type Bytes = seq<bv8>

  /** The credentials of a connector bound to the activity's service URL:
      Microsoft app credentials, whose token request may fail, or some other
      kind of credentials, which yield no token. */
  datatype Credentials = AppCredentials(token: Remote<string>) | OtherCredentials

  /** `Authorization: <scheme> <parameter>`; a null parameter is allowed. */
  datatype AuthHeader = AuthHeader(scheme: string, parameter: Option<string>)

  /** The client's default request headers that the bot touches. */
  datatype Headers = Headers(authorization: Option<AuthHeader>, accept: seq<string>)

  const NoHeaders := Headers(None, [])

  /** `activity.ChannelId == "skype"`: exact, case-sensitive equality. A null
      channel id compares unequal, like any other string. */
  predicate IsSkype(channelId: string)
  {
    channelId == SkypeChannel
  }

  /** `GetTokenAsync`: the app credentials' token, null for any other kind of
      credentials, or the failure of the token request. */
  function GetToken(creds: Credentials): (r: Remote<Option<string>>)
    ensures r == Ok(None) <==> creds.OtherCredentials?
    ensures r.Ok? && r.value.Some? <==> creds.AppCredentials? && creds.token.Ok?
    ensures r.Ok? && r.value.Some? ==> r.value.value == creds.token.value
    ensures r.Failed? ==> creds == AppCredentials(Failed(r.exception))
  {
    match creds
    case OtherCredentials => Ok(None)
    case AppCredentials(Ok(t)) => Ok(Some(t))
    case AppCredentials(Failed(e)) => Failed(e)
  }

  /** The headers after `HandleSkypeSecurityToken` ran on headers `h`, or the
      exception it threw. The token is awaited before anything is assigned, so a
      failed token request leaves the headers as they were. */
  function SecureHeaders(channelId: string, creds: Credentials, h: Headers): Remote<Headers>
  {
    if !IsSkype(channelId) then Ok(h)
    else match GetToken(creds)
      case Failed(e) => Failed(e)
      case Ok(token) => Ok(Headers(Some(AuthHeader(BearerScheme, token)), h.accept + [OctetStream]))
  }

  /** The headers change, or the token request throws, exactly on the Skype
      channel; there the Authorization
      header is a bearer token (null without app credentials) and the Accept
      headers gain octet-stream at the end, and elsewhere nothing is touched. */
  lemma SkypeOnly(channelId: string, creds: Credentials, h: Headers)
    ensures SecureHeaders(channelId, creds, h) != Ok(h) <==> IsSkype(channelId)
    ensures !IsSkype(channelId) ==> SecureHeaders(channelId, creds, h) == Ok(h)
    ensures IsSkype(channelId) && SecureHeaders(channelId, creds, h).Ok? ==>
              var h' := SecureHeaders(channelId, creds, h).value;
              && GetToken(creds).Ok?
              && h'.authorization == Some(AuthHeader(BearerScheme, GetToken(creds).value))
              && h'.accept[..|h.accept|] == h.accept
              && h'.accept[|h.accept|..] == [OctetStream]
    ensures SecureHeaders(channelId, creds, h).Failed? <==> IsSkype(channelId) && GetToken(creds).Failed?
  {
    if IsSkype(channelId) && GetToken(creds).Ok? {
      assert |SecureHeaders(channelId, creds, h).value.accept| == |h.accept| + 1;
    }
  }

  /** `DownloadImage`'s result: the GET's outcome, unless the token request
      failed first, in which case no GET is issued. */
  function DownloadResult(channelId: string, creds: Credentials, get: Remote<Bytes>): Remote<Bytes>
  {
    match SecureHeaders(channelId, creds, NoHeaders)
    case Failed(e) => Failed(e)
    case Ok(_) => get
  }

  /** The default headers of one `HttpClient`, which `HandleSkypeSecurityToken`
      updates in place. */
  class RequestHeaders {
    var authorization: Option<AuthHeader>
    var accept: seq<string>

    /** `new HttpClient()`: no Authorization header, no Accept headers. */
    constructor ()
      ensures Value() == NoHeaders
    {
      authorization := None;
      accept := [];
    }

    function Value(): Headers
      reads this
    {
      Headers(authorization, accept)
    }

    /** `HandleSkypeSecurityToken`: on the Skype channel, await the token, then
        set a bearer Authorization header and add an octet-stream Accept
        header; on any other channel, do nothing. */
    method HandleSkypeSecurityToken(channelId: string, creds: Credentials) returns (r: Remote<()>)
      modifies this
      ensures r.Ok? <==> SecureHeaders(channelId, creds, old(Value())).Ok?
      ensures r.Ok? ==> Value() == SecureHeaders(channelId, creds, old(Value())).value
      ensures r.Failed? ==> r.exception == SecureHeaders(channelId, creds, old(Value())).exception
      ensures r.Failed? ==> Value() == old(Value())
    {
      if IsSkype(channelId) {
        var token := GetToken(creds);
        if token.Failed? {
          return Failed(token.exception);
        }
        authorization := Some(AuthHeader(BearerScheme, token.value));
        accept := accept + [OctetStream];
      }
      r := Ok(());
    }
  }

  /** `DownloadImage`: a fresh client, the Skype header rule, then the GET.
      `request` is the header set the GET went out with, or `None` when the
      token request threw before any GET was issued. */
  method DownloadImage(channelId: string, creds: Credentials, get: Remote<Bytes>)
    returns (r: Remote<Bytes>, request: Option<Headers>)
    ensures r == DownloadResult(channelId, creds, get)
    ensures request.None? <==> IsSkype(channelId) && GetToken(creds).Failed?
    ensures request.Some? ==> r == get
    ensures request.Some? ==> (request.value.authorization.Some? <==> IsSkype(channelId))
    ensures request.Some? && IsSkype(channelId) ==>
              request.value == Headers(Some(AuthHeader(BearerScheme, GetToken(creds).value)), [OctetStream])
    ensures request.Some? && !IsSkype(channelId) ==> request.value == NoHeaders
  {
    var client := new RequestHeaders();
    var secured := client.HandleSkypeSecurityToken(channelId, creds);
    if secured.Failed? {
      return Failed(secured.exception), None;
    }
    r, request := get, Some(client.Value());
  }
}
