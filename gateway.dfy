/**
 * The authenticated request helpers (frontend/src/utils/api.ts): `authFetch`
 * merges the caller's headers over a JSON content type, adds the stored token as
 * a bearer credential, and on a 401 drops the stored session and navigates home;
 * `checkUsage` and `recordUsage` are two calls through it.
 *
 * The network is the parameter `fetch`: `Err(message)` is a rejected promise.
 */
module Gateway {

  import opened Basics
  import opened Text
  import opened Models
  import opened Json
  import opened Browser
  import SessionStore
  import UsageGate

  /** The `RequestInit` fields the helpers use (`verb` is its `method`); `other` stands for every remaining option. */
  datatype RequestInit = RequestInit(verb: Option<string>, headers: map<string, string>,
                                     body: Option<string>, other: map<string, string>)

  datatype Response = Response(status: int, body: string)

  type Fetch = (string, RequestInit) -> Result<Response, string>

  const ContentType: string := "Content-Type"
  const AuthorizationHeader: string := "Authorization"
  const UsageCheckUrl: string := "/api/resume/usage/check"
  const UsageRecordUrl: string := "/api/resume/usage/record"

  /**
   * The headers `authFetch` sends: `Content-Type: application/json` unless the
   * caller supplies its own, every caller header, and, when the stored token is
   * truthy, `Authorization: Bearer <token>` over whatever the caller gave.
   */
  function RequestHeaders(token: Option<string>, supplied: map<string, string>): (h: map<string, string>)
    ensures ContentType in h
    ensures h[ContentType] == if ContentType in supplied then supplied[ContentType] else "application/json"
    ensures Truthy(token) ==> AuthorizationHeader in h && h[AuthorizationHeader] == "Bearer " + token.value
    ensures !Truthy(token) ==> (AuthorizationHeader in h <==> AuthorizationHeader in supplied)
    ensures forall k :: k in supplied && k != AuthorizationHeader ==> k in h && h[k] == supplied[k]
    ensures !Truthy(token) ==> forall k :: k in supplied ==> k in h && h[k] == supplied[k]
    ensures forall k :: k in h ==> k in supplied || k == ContentType || k == AuthorizationHeader
  {
    var merged := map[ContentType := "application/json"] + supplied;
    if Truthy(token) then merged[AuthorizationHeader := "Bearer " + token.value] else merged
  }

  /** The header the client writes for a stored token is one the usage middleware accepts, giving back that token. */
  lemma BearerHeaderAccepted(t: string, supplied: map<string, string>)
    requires t != [] && UsageGate.VisibleAscii(t)
    ensures UsageGate.BearerToken(Some(RequestHeaders(Some(t), supplied)[AuthorizationHeader])) == Ok(t)
  {
    var h := "Bearer " + t;
    assert UsageGate.VisibleAscii(h) by {
      forall i | 0 <= i < |h|
        ensures h[i] == '\t' || (' ' <= h[i] && h[i] <= '~')
      {
        if i >= 7 {
          assert h[i] == t[i - 7];
        }
      }
    }
    assert h[..7] == UsageGate.BearerPrefix && h[7..] == t;
  }

  /**
   * `authFetch`. Only `headers` differs from the caller's options. A 401 removes
   * both stored session entries and navigates to `/`; any other status, and a
   * rejected request, leaves storage and location alone. The response is
   * returned as received in every case. The provider's in-memory session is not
   * touched.
   */
  method AuthFetch(storage: LocalStorage, location: Location, url: string, options: RequestInit, fetch: Fetch)
    returns (r: Result<Response, string>)
    modifies storage, location
    ensures r == fetch(url, options.(headers := RequestHeaders(old(storage.GetItem(SessionStore.TokenKey)), options.headers)))
    ensures r.Ok? && r.value.status == 401 ==>
      storage.entries == old(storage.entries) - {SessionStore.TokenKey, SessionStore.UserKey} && location.href == "/"
    ensures !(r.Ok? && r.value.status == 401) ==>
      storage.entries == old(storage.entries) && location.href == old(location.href)
  {
    var token := storage.GetItem(SessionStore.TokenKey);
    var headers := map[ContentType := "application/json"] + options.headers;
    if Truthy(token) {
      headers := headers[AuthorizationHeader := "Bearer " + token.value];
    }
    r := fetch(url, options.(headers := headers));
    if r.Ok? && r.value.status == 401 {
      storage.RemoveItem(SessionStore.TokenKey);
      storage.RemoveItem(SessionStore.UserKey);
      location.href := "/";
    }
  }

  /** The request options `checkUsage` passes: none. */
  const NoOptions: RequestInit := RequestInit(None, map[], None, map[])

  /**
   * `checkUsage`: a default-method request, whose body is parsed as JSON whatever
   * the status; `Err` is a rejected request or a body that is not JSON. A 401
   * drops the stored session and navigates home, as every `authFetch` call does.
   */
  method CheckUsage(storage: LocalStorage, location: Location, fetch: Fetch) returns (r: Result<Json, string>)
    modifies storage, location
    ensures var sent := fetch(UsageCheckUrl, NoOptions.(headers := RequestHeaders(old(storage.GetItem(SessionStore.TokenKey)), map[])));
      && (sent.Err? ==> r == Err(sent.error))
      && (sent.Ok? && Parse(sent.value.body).Some? ==> r == Ok(Parse(sent.value.body).value))
      && (sent.Ok? && Parse(sent.value.body).None? ==> r.Err?)
      && (sent.Ok? && sent.value.status == 401 ==>
            storage.entries == old(storage.entries) - {SessionStore.TokenKey, SessionStore.UserKey} && location.href == "/")
      && (!(sent.Ok? && sent.value.status == 401) ==>
            storage.entries == old(storage.entries) && location.href == old(location.href))
  {
    var response := AuthFetch(storage, location, UsageCheckUrl, NoOptions, fetch);
    if response.Err? {
      return Err(response.error);
    }
    var data := Parse(response.value.body);
    if data.None? {
      return Err("SyntaxError: JSON.parse");
    }
    r := Ok(data.value);
  }

  /** The body `recordUsage` posts: `{"action": action}`. */
  function UsageRecordBody(action: string): (body: string)
    ensures Parse(body) == Some(Obj([Member("action", Str(action))]))
    ensures Get(Parse(body).value, "action") == Some(Str(action))
  {
    ParseStringify(Obj([Member("action", Str(action))]));
    Stringify(Obj([Member("action", Str(action))]))
  }

  /**
   * `recordUsage`: a POST of `{action}` through `authFetch`; the response is
   * ignored, but a 401 still drops the stored session and navigates home.
   */
  method RecordUsage(storage: LocalStorage, location: Location, action: string, fetch: Fetch)
    returns (r: Result<(), string>)
    modifies storage, location
    ensures var sent := fetch(UsageRecordUrl, RequestInit(Some("POST"), RequestHeaders(old(storage.GetItem(SessionStore.TokenKey)), map[]),
                                                          Some(UsageRecordBody(action)), map[]));
      && (r.Ok? <==> sent.Ok?)
      && (sent.Ok? && sent.value.status == 401 ==>
            storage.entries == old(storage.entries) - {SessionStore.TokenKey, SessionStore.UserKey} && location.href == "/")
      && (!(sent.Ok? && sent.value.status == 401) ==>
            storage.entries == old(storage.entries) && location.href == old(location.href))
  {
    var response := AuthFetch(storage, location, UsageRecordUrl,
                              RequestInit(Some("POST"), map[], Some(UsageRecordBody(action)), map[]), fetch);
    if response.Err? {
      return Err(response.error);
    }
    r := Ok(());
  }
}
