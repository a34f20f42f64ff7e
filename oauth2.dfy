/** The Spotify OAuth2 client of oauth2.py: the Authorization Code grant of RFC 6749 section 4.1
    (authorization URL, loopback callback listener, code exchange, refresh of section 6) and the
    token cache it keeps in `oauth_token.txt`.

    The browser, the listening socket, the token endpoint and the clock are inputs: the browser's
    requests are a stream of parsed queries, the endpoint is a function from the request posted to
    the decoded JSON answer (or the exception `urlopen` raises), and the two readings of
    `time.time()` are integer parameters. */
module OAuth2Client {
  import opened Wrappers
  import opened Text
  import opened Encoding

  /** A JSON value of a token response or of the cache file. */
  datatype Json = JStr(s: string) | JInt(n: int)

  /** A decoded JSON object: a token-endpoint response, or the content of the cache file. */
  type Token = map<string, Json>

  /** The query of one callback request, as `dict(parse_qsl(query))` gives it. */
  type Query = map<string, string>

  /** The exceptions the client raises or lets through. */
  datatype Error =
    | MustBeNotNull(name: string)   // `Exception(varName + " must be not null.")`
    | TypeError(reason: string)
    | KeyError(key: string)
    | FileNotFound(path: string)    // `os.remove` of a missing cache file
    | RequestFailed(reason: string) // what `urlopen` raises for the token endpoint

  const MaxNumRequests: nat := 5
  const CacheFileName := "oauth_token.txt"
  const BaseUrl := "https://accounts.spotify.com/authorize/?"
  const TokenUrl := "https://accounts.spotify.com/api/token"
  const FormContentType := "application/x-www-form-urlencoded;charset=utf-8"

  const QuoteOfNone := "quote_from_bytes() expected bytes"
  const NoneNotIterable := "argument of type 'NoneType' is not iterable"
  const ConcatOfNone := "can only concatenate str (not \"NoneType\") to str"
  const NonePlusStr := "unsupported operand type(s) for +: 'NoneType' and 'str'"
  const IntPlusStr := "unsupported operand type(s) for +: 'int' and 'str'"
  const StrPlusInt := "can only concatenate str (not \"int\") to str"
  const StrGtFloat := "'>' not supported between instances of 'str' and 'float'"

  /** The constructor arguments of `Oauth2`, with the constructor's defaults; `None` is
      Python's `None`. */
  datatype Config = Config(
    clientId: Option<string> := None,
    clientSecret: Option<string> := None,
    scope: Option<string> := None,
    state: Option<string> := None,
    redirectUri: Option<string> := Some("http://127.0.0.1:8000"),
    responseType: Option<string> := Some("code"),
    showDialog: Option<string> := None)

  /** `str(v)` of an optional string. */
  function PyStr(v: Option<string>): string
  {
    if v.Some? then v.value else "None"
  }

  /** `str(v)` of a JSON value. */
  function JsonStr(v: Json): string
  {
    match v
    case JStr(s) => s
    case JInt(n) => if n < 0 then "-" + Decimal(-n) else Decimal(n)
  }

  function Decimal(n: nat): string
  {
    var digit := [('0' as int + n % 10) as char];
    if n < 10 then digit else Decimal(n / 10) + digit
  }

  // ----------------------------------------------------- authorization URL

  /** `quote(v)`, which raises `TypeError` on `None`. */
  function QuoteArg(v: Option<string>): Result<string, Error>
  {
    if v.None? then Failure(TypeError(QuoteOfNone)) else Success(Quote(v.value, {'/'}))
  }

  function Field(name: string, value: string): string
  {
    name + "=" + value
  }

  /** The field `name=value` when the value is present, nothing when it is absent. */
  function Optional(name: string, value: Option<string>): seq<string>
  {
    if value.Some? then [Field(name, value.value)] else []
  }

  /** The query fields of the authorization URL, in their fixed order; an absent state or
      show_dialog contributes no field at all. */
  function UrlFields(c: Config): seq<string>
    requires c.clientId.Some? && c.responseType.Some? && c.redirectUri.Some? && c.scope.Some?
  {
    Optional("client_id", c.clientId)
    + Optional("response_type", c.responseType)
    + Optional("redirect_uri", Some(Quote(c.redirectUri.value, {'/'})))
    + Optional("state", c.state)
    + Optional("scope", Some(Quote(c.scope.value, {'/'})))
    + Optional("show_dialog", c.showDialog)
  }

  /** The authorization URL `Oauth2` builds, or the exception its constructor raises. */
  function AuthorizationUrl(c: Config): (r: Result<string, Error>)
    ensures r.Success? <==> c.clientId.Some? && c.responseType.Some? && c.redirectUri.Some? && c.scope.Some?
    ensures r.Success? ==> StartsWith(r.value, BaseUrl)
  {
    if c.clientId.None? then Failure(MustBeNotNull("client_id"))
    else if c.responseType.None? then Failure(MustBeNotNull("response_type"))
    else if c.redirectUri.None? || c.scope.None? then Failure(TypeError(QuoteOfNone))
    else Success(BaseUrl + Join(UrlFields(c), '&'))
  }

  /** The call `Oauth2(id, secret, scope, state)` relies on the defaults: response_type is
      "code" and redirect_uri the loopback address, while an explicit `None` response_type
      raises and an omitted scope makes `quote` raise. */
  lemma PositionalDefaults(id: string, secret: string, scope: string, state: string)
    ensures var c := Config(Some(id), Some(secret), Some(scope), Some(state));
      && AuthorizationUrl(c).Success?
      && UrlFields(c) == [Field("client_id", id), Field("response_type", "code"),
                          Field("redirect_uri", Quote("http://127.0.0.1:8000", {'/'})),
                          Field("state", state), Field("scope", Quote(scope, {'/'}))]
    ensures AuthorizationUrl(Config(Some(id), Some(secret), Some(scope), Some(state), responseType := None))
            == Failure(MustBeNotNull("response_type"))
    ensures AuthorizationUrl(Config(Some(id), Some(secret))) == Failure(TypeError(QuoteOfNone))
  {
    var c := Config(Some(id), Some(secret), Some(scope), Some(state));
    FieldsWithState(c);
  }

  /** With a state and no show_dialog, the URL has exactly five fields. */
  lemma FieldsWithState(c: Config)
    requires c.clientId.Some? && c.responseType.Some? && c.redirectUri.Some? && c.scope.Some?
    requires c.state.Some? && c.showDialog.None?
    ensures UrlFields(c) == [Field("client_id", c.clientId.value), Field("response_type", c.responseType.value),
                             Field("redirect_uri", Quote(c.redirectUri.value, {'/'})),
                             Field("state", c.state.value), Field("scope", Quote(c.scope.value, {'/'}))]
  {
  }

  /** The URL is the base followed by exactly the present parameters as `name=value`, in the
      order client_id, response_type, redirect_uri, state, scope, show_dialog, separated by `&`
      with none trailing. The unquoted values must be free of `&` for the split to be exact. */
  lemma AuthorizationUrlFields(c: Config)
    requires AuthorizationUrl(c).Success?
    requires '&' !in c.clientId.value && '&' !in c.responseType.value
    requires c.state.Some? ==> '&' !in c.state.value
    requires c.showDialog.Some? ==> '&' !in c.showDialog.value
    ensures StartsWith(AuthorizationUrl(c).value, BaseUrl)
    ensures Split(AuthorizationUrl(c).value[|BaseUrl|..], '&') == UrlFields(c)
  {
    var fields := UrlFields(c);
    var url := AuthorizationUrl(c).value;
    assert url[|BaseUrl|..] == Join(fields, '&');
    UrlFieldsAmpFree(c);
    SplitJoin(fields, '&');
  }

  /** With the unquoted values free of `&`, no field of the URL contains one: the quoted
      redirect_uri and scope never do. */
  lemma UrlFieldsAmpFree(c: Config)
    requires c.clientId.Some? && c.responseType.Some? && c.redirectUri.Some? && c.scope.Some?
    requires '&' !in c.clientId.value && '&' !in c.responseType.value
    requires c.state.Some? ==> '&' !in c.state.value
    requires c.showDialog.Some? ==> '&' !in c.showDialog.value
    ensures AmpFree(UrlFields(c))
  {
    QuoteOmits(c.redirectUri.value, {'/'}, '&');
    QuoteOmits(c.scope.value, {'/'}, '&');
    var a := Optional("client_id", c.clientId);
    var b := Optional("response_type", c.responseType);
    var d := Optional("redirect_uri", Some(Quote(c.redirectUri.value, {'/'})));
    var e := Optional("state", c.state);
    var f := Optional("scope", Some(Quote(c.scope.value, {'/'})));
    var g := Optional("show_dialog", c.showDialog);
    OptionalAmpFree("client_id", c.clientId);
    OptionalAmpFree("response_type", c.responseType);
    OptionalAmpFree("redirect_uri", Some(Quote(c.redirectUri.value, {'/'})));
    OptionalAmpFree("state", c.state);
    OptionalAmpFree("scope", Some(Quote(c.scope.value, {'/'})));
    OptionalAmpFree("show_dialog", c.showDialog);
    AmpFreeAppend(a, b);
    AmpFreeAppend(a + b, d);
    AmpFreeAppend(a + b + d, e);
    AmpFreeAppend(a + b + d + e, f);
    AmpFreeAppend(a + b + d + e + f, g);
  }

  /** No field of `fields` contains `&`. */
  predicate AmpFree(fields: seq<string>)
  {
    forall i :: 0 <= i < |fields| ==> '&' !in fields[i]
  }

  lemma OptionalAmpFree(name: string, value: Option<string>)
    requires '&' !in name
    requires value.Some? ==> '&' !in value.value
    ensures AmpFree(Optional(name, value))
  {
  }

  lemma AmpFreeAppend(a: seq<string>, b: seq<string>)
    requires AmpFree(a) && AmpFree(b)
    ensures AmpFree(a + b)
  {
    forall i | 0 <= i < |a + b| ensures '&' !in (a + b)[i] {
      if i >= |a| { assert (a + b)[i] == b[i - |a|]; }
    }
  }

  /** client_id and response_type are required: missing, they raise "must be not null". The
      quoted redirect_uri and scope raise `TypeError` when `None`, so scope is effectively
      required too. A missing state or show_dialog never causes a failure. */
  lemma AuthorizationUrlRequired(c: Config)
    ensures c.clientId.None? ==> AuthorizationUrl(c) == Failure(MustBeNotNull("client_id"))
    ensures c.clientId.Some? && c.responseType.None? ==>
              AuthorizationUrl(c) == Failure(MustBeNotNull("response_type"))
    ensures c.scope.None? || c.redirectUri.None? ==> AuthorizationUrl(c).Failure?
    ensures AuthorizationUrl(c).Success? <==> AuthorizationUrl(c.(state := None, showDialog := None)).Success?
  {
  }

  /** An absent state is omitted, never sent as an empty `state=`. */
  lemma AbsentStateOmitted(c: Config)
    requires AuthorizationUrl(c).Success? && c.state.None?
    ensures forall f :: f in UrlFields(c) ==> !StartsWith(f, "state=")
  {
    NotState("client_id", c.clientId);
    NotState("response_type", c.responseType);
    NotState("redirect_uri", Some(Quote(c.redirectUri.value, {'/'})));
    NotState("scope", Some(Quote(c.scope.value, {'/'})));
    NotState("show_dialog", c.showDialog);
  }

  /** A field whose name differs from "state" in its second letter cannot start with `state=`. */
  lemma NotState(name: string, value: Option<string>)
    requires |name| > 1 && name[1] != 't'
    ensures forall f :: f in Optional(name, value) ==> !StartsWith(f, "state=")
  {
    if value.Some? {
      assert Field(name, value.value)[1] == name[1];
    }
  }

  /** The text `self.url` holds while parameters are being added: each field followed by `&`. */
  function Terminated(fields: seq<string>): string
  {
    if |fields| == 0 then "" else fields[0] + "&" + Terminated(fields[1..])
  }

  lemma {:induction false} TerminatedAppend(fields: seq<string>, f: string)
    ensures Terminated(fields + [f]) == Terminated(fields) + f + "&"
  {
    if |fields| > 0 {
      assert (fields + [f])[1..] == fields[1..] + [f];
      TerminatedAppend(fields[1..], f);
    } else {
      assert Terminated([f]) == f + "&" + Terminated([]);
    }
  }

  /** Dropping the last character of the terminated text gives the `&`-joined fields. */
  lemma {:induction false} TerminatedJoin(fields: seq<string>)
    requires |fields| >= 1
    ensures Terminated(fields) == Join(fields, '&') + "&"
  {
    if |fields| > 1 {
      TerminatedJoin(fields[1..]);
    }
  }

  /** Cutting the last character of the URL under construction leaves base and joined fields. */
  lemma TrailingAmpersand(fields: seq<string>)
    requires |fields| >= 1
    ensures |BaseUrl + Terminated(fields)| >= 1
    ensures (BaseUrl + Terminated(fields))[..|BaseUrl + Terminated(fields)| - 1] == BaseUrl + Join(fields, '&')
  {
    TerminatedJoin(fields);
    var u := BaseUrl + Join(fields, '&');
    assert BaseUrl + Terminated(fields) == u + "&";
    assert (u + "&")[..|u|] == u;
  }

  // ------------------------------------------------------------ token cache

  /** `self.token_cache` after `_load_token_cache`: the file's content when the file exists,
      otherwise whatever was loaded before. */
  function Loaded(cache: Option<Token>, file: Option<Token>): Option<Token>
  {
    if file.Some? then file else cache
  }

  /** The object `_write_token_to_cache` stores: the response with `time_requested` set. */
  function Stamp(token: Token, now: int): Token
  {
    token["time_requested" := JInt(now)]
  }

  /** `_is_valid_token`: false without a cache, otherwise `expires_in + time_requested > now`;
      a missing key raises `KeyError`; a string operand raises `TypeError`, from `+` when
      only one of them is a string and from `>` when `+` has concatenated two. */
  function IsValidToken(cache: Option<Token>, now: int): (r: Result<bool, Error>)
    ensures r == Success(true) ==> cache.Some?
  {
    match cache
    case None => Success(false)
    case Some(t) =>
      if "expires_in" !in t then Failure(KeyError("expires_in"))
      else if "time_requested" !in t then Failure(KeyError("time_requested"))
      else match (t["expires_in"], t["time_requested"])
        case (JInt(e), JInt(w)) => Success(e + w > now)
        case (JInt(_), JStr(_)) => Failure(TypeError(IntPlusStr))
        case (JStr(_), JInt(_)) => Failure(TypeError(StrPlusInt))
        case (JStr(_), JStr(_)) => Failure(TypeError(StrGtFloat))  // `+` concatenates, `>` fails
  }

  predicate HasTimes(t: Token)
  {
    "expires_in" in t && t["expires_in"].JInt? && "time_requested" in t && t["time_requested"].JInt?
  }

  function ExpiresAt(t: Token): int
    requires HasTimes(t)
  {
    t["expires_in"].n + t["time_requested"].n
  }

  /** Validity is a strict comparison: a token is valid strictly before its expiry instant and
      expired at that instant and ever after; no cache is never valid. */
  lemma ValidityIsStrict(t: Token, now: int, later: int)
    requires HasTimes(t) && now <= later
    ensures IsValidToken(None, now) == Success(false)
    ensures IsValidToken(Some(t), ExpiresAt(t)) == Success(false)
    ensures IsValidToken(Some(t), later) == Success(true) ==> IsValidToken(Some(t), now) == Success(true)
    ensures IsValidToken(Some(t), now) == Success(false) ==> IsValidToken(Some(t), later) == Success(false)
  {
  }

  /** A response written to the cache at `written` with an integer `expires_in` is valid exactly
      until `written + expires_in`, whatever `time_requested` the response carried. */
  lemma FreshAfterWrite(response: Token, written: int, now: int)
    requires "expires_in" in response && response["expires_in"].JInt?
    ensures IsValidToken(Loaded(None, Some(Stamp(response, written))), now)
            == Success(now < written + response["expires_in"].n)
  {
  }

  /** With both times present, a `TypeError` is raised exactly when one of them is a string,
      and its message depends on which operand is the string. */
  lemma ValidityTypeErrors(t: Token, now: int)
    requires "expires_in" in t && "time_requested" in t
    ensures IsValidToken(Some(t), now).Failure? <==> !HasTimes(t)
    ensures t["expires_in"].JInt? && t["time_requested"].JStr? ==>
              IsValidToken(Some(t), now) == Failure(TypeError(IntPlusStr))
    ensures t["expires_in"].JStr? && t["time_requested"].JInt? ==>
              IsValidToken(Some(t), now) == Failure(TypeError(StrPlusInt))
    ensures t["expires_in"].JStr? && t["time_requested"].JStr? ==>
              IsValidToken(Some(t), now) == Failure(TypeError(StrGtFloat))
  {
  }

  // ------------------------------------------------------- request builders

  /** `_make_access_body`: the code exchange of RFC 6749 section 4.1.3, `str()` of each value. */
  function AccessBody(code: Option<string>, c: Config): string
  {
    Urlencode(AccessPairs(code, c))
  }

  /** `_make_refresh_body`: the refresh of RFC 6749 section 6. */
  function RefreshPairs(refreshToken: Json): (pairs: seq<(string, string)>)
    ensures |pairs| == 2
  {
    [("grant_type", "refresh_token"), ("refresh_token", JsonStr(refreshToken))]
  }

  function RefreshBody(refreshToken: Json): string
  {
    Urlencode(RefreshPairs(refreshToken))
  }

  /** `_make_refresh_header`: HTTP Basic credentials of RFC 7617 section 2; concatenating a
      missing id or secret raises `TypeError`. */
  function RefreshHeader(c: Config): (r: Result<(string, string), Error>)
    ensures r.Success? <==> c.clientId.Some? && c.clientSecret.Some?
    ensures r.Success? ==> r.value.0 == "Authorization" && StartsWith(r.value.1, "Basic ")
  {
    if c.clientId.None? then Failure(TypeError(NonePlusStr))
    else if c.clientSecret.None? then Failure(TypeError(ConcatOfNone))
    else Success(("Authorization", "Basic " + Base64Encode(Utf8(c.clientId.value + ":" + c.clientSecret.value))))
  }

  /** The keys and fixed values the token requests put in their bodies. */
  const FormWords: set<string> :=
    {"grant_type", "authorization_code", "refresh_token", "code", "redirect_uri", "client_id", "client_secret"}

  lemma FormWordSafe(w: string)
    requires w in FormWords
    ensures AllSafe(w, {})
  {
  }

  /** Those words are plain text, which `quote_plus` keeps as is. */
  lemma FormWordPlain(w: string)
    requires w in FormWords
    ensures QuotePlus(w) == w
  {
    FormWordSafe(w);
    QuotePlusSafe(w);
  }

  function AccessPairs(code: Option<string>, c: Config): (pairs: seq<(string, string)>)
    ensures |pairs| == 5
  {
    [("grant_type", "authorization_code"), ("code", PyStr(code)),
     ("redirect_uri", PyStr(c.redirectUri)), ("client_id", PyStr(c.clientId)),
     ("client_secret", PyStr(c.clientSecret))]
  }

  /** A form key next to a value: `quote_plus` keeps the key as it is and quotes only the
      value (for the fixed values authorization_code and refresh_token, `FormWordPlain` shows
      they are kept as they are too). */
  lemma FormFieldPlain(key: string, value: string)
    requires key in FormWords
    ensures FormField(key, value) == Field(key, QuotePlus(value))
  {
    FormWordPlain(key);
  }

  /** The code-exchange body splits at `&` into exactly the five encoded pairs grant_type,
      code, redirect_uri, client_id and client_secret, in that order: whatever the values hold,
      none of them can add, drop or reorder a field (`FormFieldSplit` reads each field back as
      key and value, `FormFieldPlain` shows the keys come out as they are). */
  lemma AccessBodyFields(code: Option<string>, c: Config)
    ensures Split(AccessBody(code, c), '&') == FormFields(AccessPairs(code, c))
    ensures |Split(AccessBody(code, c), '&')| == 5
  {
    UrlencodeFields(AccessPairs(code, c));
  }

  /** The refresh body carries exactly grant_type=refresh_token and the refresh token. */
  lemma RefreshBodyFields(refreshToken: Json)
    ensures var fields := Split(RefreshBody(refreshToken), '&');
      && |fields| == 2
      && fields[0] == FormField("grant_type", "refresh_token")
      && fields[1] == FormField("refresh_token", JsonStr(refreshToken))
  {
    UrlencodeFields(RefreshPairs(refreshToken));
  }

  /** The Authorization header decodes back to the UTF-8 bytes of `client_id:client_secret`. */
  lemma RefreshHeaderDecodes(c: Config)
    ensures RefreshHeader(c).Success? <==> c.clientId.Some? && c.clientSecret.Some?
    ensures RefreshHeader(c).Success? ==>
              var (name, value) := RefreshHeader(c).value;
              name == "Authorization" && StartsWith(value, "Basic ")
              && Base64Decode(value[6..]) == Some(Utf8(c.clientId.value + ":" + c.clientSecret.value))
  {
    if c.clientId.Some? && c.clientSecret.Some? {
      var bytes := Utf8(c.clientId.value + ":" + c.clientSecret.value);
      Base64RoundTrip(bytes);
      assert ("Basic " + Base64Encode(bytes))[6..] == Base64Encode(bytes);
    }
  }

  /** A POST to the token endpoint, headers named as `Request.add_header` stores them. The
      request keeps the form it was built from; `Body` is the text `urlopen` sends. */
  datatype TokenRequest = TokenRequest(url: string, headers: map<string, string>, form: seq<(string, string)>)

  function Body(r: TokenRequest): string
  {
    Urlencode(r.form)
  }

  function AccessRequest(code: Option<string>, c: Config): TokenRequest
  {
    TokenRequest(TokenUrl, map["Content-type" := FormContentType], AccessPairs(code, c))
  }

  function RefreshRequest(refreshToken: Json, authorization: string): TokenRequest
  {
    TokenRequest(TokenUrl, map["Authorization" := authorization, "Content-type" := FormContentType],
                 RefreshPairs(refreshToken))
  }

  // ------------------------------------------------------ obtain_authorization

  /** What the first half of `obtain_authorization` settles on: an answer with no request, or
      the request to post. */
  datatype Prepared = Answered(result: Result<Json, Error>) | Post(request: TokenRequest)

  /** The refresh branch: a request with Basic credentials, or the `TypeError` building them
      raises. */
  function RefreshOutcome(refreshToken: Json, c: Config): Prepared
  {
    match RefreshHeader(c)
    case Failure(e) => Answered(Failure(e))
    case Success(h) => Post(RefreshRequest(refreshToken, h.1))
  }

  /** The branch `obtain_authorization` takes. */
  datatype Step =
    | UseCached(accessToken: Json) // a valid cached token: no request at all
    | Refresh(refreshToken: Json)  // stale, with a refresh token
    | Reauthorize                  // stale, without one: remove the cache, run the browser flow
    | Exchange(code: string)       // a code supplied by the caller

  /** `token["access_token"]`. */
  function AccessTokenOf(t: Token): Result<Json, Error>
  {
    if "access_token" in t then Success(t["access_token"]) else Failure(KeyError("access_token"))
  }

  /** The decision of `obtain_authorization`, given the token cache it consults (loaded when the
      caller passes no code). With no cache at all, `"refresh_token" in None` raises. */
  function Plan(bearer: Option<string>, cache: Option<Token>, now: int): (r: Result<Step, Error>)
    ensures r.Success? && r.value.Exchange? <==> bearer.Some?
  {
    if bearer.Some? then Success(Exchange(bearer.value))
    else match IsValidToken(cache, now)
      case Failure(e) => Failure(e)
      case Success(valid) =>
        if valid then
          (match AccessTokenOf(cache.value)
           case Success(a) => Success(UseCached(a))
           case Failure(e) => Failure(e))
        else if cache.None? then Failure(TypeError(NoneNotIterable))
        else if "refresh_token" in cache.value then Success(Refresh(cache.value["refresh_token"]))
        else Success(Reauthorize)
  }

  /** The cache `obtain_authorization` consults: without a code from the caller the file is
      loaded over the in-memory cache first. */
  function Consulted(bearer: Option<string>, cache: Option<Token>, file: Option<Token>): Option<Token>
  {
    if bearer.None? then Loaded(cache, file) else cache
  }

  function PlanFor(bearer: Option<string>, cache: Option<Token>, file: Option<Token>, now: int): Result<Step, Error>
  {
    Plan(bearer, Consulted(bearer, cache, file), now)
  }

  /** A code from the caller is exchanged whatever the cache holds; with no cache and no code the
      call raises `TypeError` instead of starting the browser flow. */
  lemma PlanWithoutCache(code: string, cache: Option<Token>, now: int)
    ensures Plan(Some(code), cache, now) == Success(Exchange(code))
    ensures Plan(None, None, now) == Failure(TypeError(NoneNotIterable))
  {
  }

  /** After a successful exchange has written `response` at `written`, the next call without a
      code returns the same access token without a request while it is valid; once expired it
      refreshes when the response had a refresh token and reauthorizes otherwise. */
  lemma NextCallAfterWrite(response: Token, written: int, now: int)
    requires "expires_in" in response && response["expires_in"].JInt?
    requires "access_token" in response
    ensures var plan := Plan(None, Loaded(None, Some(Stamp(response, written))), now);
      && (now < written + response["expires_in"].n ==> plan == Success(UseCached(response["access_token"])))
      && (now >= written + response["expires_in"].n && "refresh_token" in response ==>
            plan == Success(Refresh(response["refresh_token"])))
      && (now >= written + response["expires_in"].n && "refresh_token" !in response ==>
            plan == Success(Reauthorize))
  {
    FreshAfterWrite(response, written, now);
    var stamped := Stamp(response, written);
    assert stamped["access_token"] == response["access_token"];
    assert "refresh_token" in stamped <==> "refresh_token" in response;
  }

  // ------------------------------------------------------ callback listener

  /** The two pages the callback can answer with: "Authentication successful" and
      "Error: Authentication failed". */
  datatype Page = AuthenticationSucceeded | AuthenticationFailed

  datatype Response = Response(status: int, contentType: string, page: Page)

  /** What `do_GET` answers: always 200, with the success page only when there is a code. */
  function Reply(q: Query): (r: Response)
    ensures r.status == 200 && r.contentType == "text/html"
    ensures r.page == AuthenticationSucceeded <==> "code" in q
  {
    Response(200, "text/html", if "code" in q then AuthenticationSucceeded else AuthenticationFailed)
  }

  /** The server's `access_code` after `do_GET` has seen `q`. */
  function CodeAfter(q: Query, code: Option<string>): Option<string>
  {
    if "code" in q then Some(q["code"]) else code
  }

  /** The replies to the requests numbered `first` up to `last`, in order, all of them 200. */
  function Replies(incoming: nat -> Query, first: nat, last: nat): (r: seq<Response>)
    requires first <= last
    ensures |r| == last - first
    ensures forall i :: 0 <= i < |r| ==> r[i].status == 200
    decreases last - first
  {
    if first == last then [] else [Reply(incoming(first))] + Replies(incoming, first + 1, last)
  }

  /** The state of a `SpotifyHTTPServer`, as a value: the requests the browser sends to it, how
      many it has handled, its `access_code` and the replies it has sent. */
  datatype Listener = Listener(incoming: nat -> Query, served: nat, code: Option<string>, replies: seq<Response>)

  /** One `handle_request`: the next request is answered and its code, if any, captured. */
  function Handle(l: Listener): (r: Listener)
    ensures r.incoming == l.incoming && r.served == l.served + 1
    ensures "code" !in l.incoming(l.served) ==> r.code == l.code
    ensures |r.replies| == |l.replies| + 1 && r.replies[..|l.replies|] == l.replies
  {
    var q := l.incoming(l.served);
    Listener(l.incoming, l.served + 1, CodeAfter(q, l.code), l.replies + [Reply(q)])
  }

  /** The loop of `get_token`: handle requests while there is no code, at most `budget` of them. */
  function Run(l: Listener, budget: nat): (r: Listener)
    ensures r.incoming == l.incoming
    ensures l.served <= r.served <= l.served + budget
    decreases budget
  {
    if l.code.Some? || budget == 0 then l else Run(Handle(l), budget - 1)
  }

  /** The loop stops right after the first request carrying a code and returns that code; when
      no request carries one it handles exactly `budget` requests and returns `None`; a code
      already captured is returned without handling anything. */
  lemma {:induction false} RunStopsAtFirstCode(l: Listener, budget: nat)
    ensures var r := Run(l, budget);
      && (l.code.Some? ==> r == l)
      && (forall k :: l.served <= k < r.served - 1 ==> "code" !in l.incoming(k))
      && (l.code.None? && r.code.Some? ==>
            r.served > l.served && "code" in l.incoming(r.served - 1)
            && r.code == Some(l.incoming(r.served - 1)["code"]))
      && (r.code.None? ==>
            r.served == l.served + budget && forall k :: l.served <= k < r.served ==> "code" !in l.incoming(k))
    decreases budget
  {
    if l.code.None? && budget > 0 {
      RunStopsAtFirstCode(Handle(l), budget - 1);
    }
  }

  /** Every request the loop handles is answered, in order, with a 200. */
  lemma {:induction false} RunReplies(l: Listener, budget: nat)
    ensures Run(l, budget).replies == l.replies + Replies(l.incoming, l.served, Run(l, budget).served)
    decreases budget
  {
    if l.code.Some? || budget == 0 {
      assert Replies(l.incoming, l.served, l.served) == [];
      assert l.replies + [] == l.replies;
    } else {
      var q := l.incoming(l.served);
      var h := Handle(l);
      RunReplies(h, budget - 1);
      var r := Run(h, budget - 1);
      var rest := Replies(l.incoming, l.served + 1, r.served);
      assert r.replies == l.replies + [Reply(q)] + rest;
      assert Replies(l.incoming, l.served, r.served) == [Reply(q)] + rest;
      assert l.replies + [Reply(q)] + rest == l.replies + ([Reply(q)] + rest);
    }
  }

  // ------------------------------------------------- obtain_authorization, whole

  /** Whether the call removes the cache and runs the browser flow. */
  predicate Reauthorizes(bearer: Option<string>, cache: Option<Token>, file: Option<Token>, now: int)
  {
    var plan := PlanFor(bearer, cache, file, now);
    plan.Success? && plan.value.Reauthorize?
  }

  /** What the first half of `obtain_authorization` settles on, given the in-memory cache, the
      cache file and the listener `get_token` would run: the answer, or the request to post. */
  function Outcome(bearer: Option<string>, cache: Option<Token>, file: Option<Token>,
                   listener: Listener, now: int, c: Config): (p: Prepared)
    ensures bearer.Some? ==> p == Post(AccessRequest(bearer, c))
    ensures p.Answered? && p.result.Success? ==> bearer.None?
  {
    match PlanFor(bearer, cache, file, now)
    case Failure(e) => Answered(Failure(e))
    case Success(UseCached(a)) => Answered(Success(a))
    case Success(Refresh(t)) => RefreshOutcome(t, c)
    case Success(Reauthorize) =>
      if file.None? then Answered(Failure(FileNotFound(CacheFileName)))
      else Post(AccessRequest(Run(listener, MaxNumRequests).code, c))
    case Success(Exchange(code)) => Post(AccessRequest(Some(code), c))
  }

  /** Consulting a cache that was just loaded from the same file decides the same way. */
  lemma LoadAgain(cache: Option<Token>, file: Option<Token>, listener: Listener, now: int, c: Config)
    ensures Outcome(None, Loaded(cache, file), file, listener, now, c) == Outcome(None, cache, file, listener, now, c)
    ensures Reauthorizes(None, Loaded(cache, file), file, now) == Reauthorizes(None, cache, file, now)
  {
    assert Loaded(Loaded(cache, file), file) == Loaded(cache, file);
  }

  /** A token is answered without any request exactly when the consulted cache holds a valid
      one, and it is that cache's access token. */
  lemma CachedAnswerIsValid(bearer: Option<string>, cache: Option<Token>, file: Option<Token>,
                            listener: Listener, now: int, c: Config)
    ensures var consulted := Consulted(bearer, cache, file);
      Outcome(bearer, cache, file, listener, now, c).Answered?
      && Outcome(bearer, cache, file, listener, now, c).result.Success?
      <==> bearer.None? && IsValidToken(consulted, now) == Success(true) && "access_token" in consulted.value
    ensures var consulted := Consulted(bearer, cache, file);
      Outcome(bearer, cache, file, listener, now, c).Answered?
      && Outcome(bearer, cache, file, listener, now, c).result.Success? ==>
        Outcome(bearer, cache, file, listener, now, c).result.value == consulted.value["access_token"]
  {
  }

  /** Every request goes to the token endpoint as a form; client credentials travel in an
      Authorization header exactly on the refresh path, and in the body otherwise. */
  lemma PostedRequests(bearer: Option<string>, cache: Option<Token>, file: Option<Token>,
                       listener: Listener, now: int, c: Config)
    ensures var p := Outcome(bearer, cache, file, listener, now, c);
      p.Post? ==> p.request.url == TokenUrl && p.request.headers["Content-type"] == FormContentType
    ensures var p := Outcome(bearer, cache, file, listener, now, c);
      var plan := PlanFor(bearer, cache, file, now);
      p.Post? ==> ("Authorization" in p.request.headers <==> plan.Success? && plan.value.Refresh?)
    ensures var p := Outcome(bearer, cache, file, listener, now, c);
      p.Post? && bearer.Some? ==> Body(p.request) == AccessBody(bearer, c)
    ensures var p := Outcome(bearer, cache, file, listener, now, c);
      p.Post? && Reauthorizes(bearer, cache, file, now) ==>
        Body(p.request) == AccessBody(Run(listener, MaxNumRequests).code, c)
  {
    var plan := PlanFor(bearer, cache, file, now);
    if plan.Success? && plan.value.Refresh? {
      var h := RefreshHeader(c);
      if h.Success? {
        var req := RefreshRequest(plan.value.refreshToken, h.value.1);
        assert "Content-type" != "Authorization" by { assert "Content-type"[0] != "Authorization"[0]; }
        assert req.headers["Content-type"] == FormContentType;
      }
    }
  }

  // ---------------------------------------------------------------- objects

  /** The cache file `oauth_token.txt`: present with a JSON object, or absent. */
  class CacheFile {
    var contents: Option<Token>

    constructor (initial: Option<Token>)
      ensures contents == initial
    {
      contents := initial;
    }
  }

  /** `SpotifyHTTPServer`: the loopback HTTP server and the code it captured. */
  class SpotifyHTTPServer {
    const incoming: nat -> Query
    var served: nat
    var accessCode: Option<string>
    var replies: seq<Response>

    function State(): Listener
      reads this
    {
      Listener(incoming, served, accessCode, replies)
    }

    /** A new server has no access code yet. */
    constructor (incoming: nat -> Query)
      ensures State() == Listener(incoming, 0, None, [])
    {
      this.incoming := incoming;
      served := 0;
      accessCode := None;
      replies := [];
    }

    /** `handle_request`: wait for the next request and give it to a fresh handler. */
    method HandleRequest()
      modifies this
      ensures State() == Handle(old(State()))
    {
      var handler := new SpotHTTPHandler(this);
      handler.DoGet(incoming(served));
      served := served + 1;
    }
  }

  /** `SpotHTTPHandler`, one per request. */
  class SpotHTTPHandler {
    const server: SpotifyHTTPServer

    constructor (server: SpotifyHTTPServer)
      ensures this.server == server
    {
      this.server := server;
    }

    /** `do_GET`: the server's access code is set only by a query with a `code` key and is left
        as it was otherwise; every request is answered with a 200. */
    method DoGet(query: Query)
      modifies server
      ensures server.accessCode == CodeAfter(query, old(server.accessCode))
      ensures server.replies == old(server.replies) + [Reply(query)]
      ensures server.served == old(server.served)
    {
      var response := AuthenticationSucceeded;
      if "code" !in query {
        response := AuthenticationFailed;
      } else {
        server.accessCode := Some(query["code"]);
      }
      server.replies := server.replies + [Response(200, "text/html", response)];
    }
  }

  /** The listener `get_token` would use: the existing server, or a new one on the browser's
      requests. */
  function ListenerOf(server: SpotifyHTTPServer?, browser: nat -> Query): Listener
    reads server
  {
    if server == null then Listener(browser, 0, None, []) else server.State()
  }

  /** `Oauth2`. */
  class Oauth2 {
    const config: Config
    const disk: CacheFile
    var tokenCache: Option<Token>
    var server: SpotifyHTTPServer?
    var url: string

    /** A constructed client holds its authorization URL. */
    ghost predicate Valid()
      reads this
    {
      AuthorizationUrl(config) == Success(url)
    }

    constructor Init(config: Config, disk: CacheFile)
      ensures this.config == config && this.disk == disk
      ensures tokenCache == None && server == null && url == ""
    {
      this.config := config;
      this.disk := disk;
      tokenCache := None;
      server := null;
      url := "";
    }

    /** `Oauth2(...)`: the constructor raises exactly when the URL cannot be built. */
    static method Create(config: Config, disk: CacheFile) returns (r: Result<Oauth2, Error>)
      ensures r.Failure? <==> AuthorizationUrl(config).Failure?
      ensures r.Failure? ==> r.error == AuthorizationUrl(config).error
      ensures r.Success? ==> fresh(r.value) && r.value.Valid() && r.value.config == config
                             && r.value.disk == disk && r.value.tokenCache == None && r.value.server == null
    {
      var o := new Oauth2.Init(config, disk);
      var err := o.BuildUrl();
      if err.Some? {
        return Failure(err.value);
      }
      return Success(o);
    }

    /** `_add_to_url`: a present value appends `name=value&`; a missing one raises when required
        and is skipped when optional. `done` names the fields already added after the base. */
    method AddToUrl(value: Option<string>, name: string, optional: bool, ghost done: seq<string>)
      returns (err: Option<Error>)
      requires url == BaseUrl + Terminated(done)
      modifies this`url
      ensures value.Some? ==> err == None && url == old(url) + Field(name, value.value) + "&"
      ensures value.None? ==> url == old(url) && err == (if optional then None else Some(MustBeNotNull(name)))
      ensures err.None? ==> url == BaseUrl + Terminated(done + Optional(name, value))
    {
      if value.Some? {
        url := url + name + "=" + value.value + "&";
        TerminatedAppend(done, Field(name, value.value));
        err := None;
      } else if !optional {
        err := Some(MustBeNotNull(name));
      } else {
        assert done + [] == done;
        err := None;
      }
    }

    /** `_build_url`: add the parameters one at a time, then cut the trailing `&`. */
    method BuildUrl() returns (err: Option<Error>)
      modifies this`url
      ensures err.None? <==> AuthorizationUrl(config).Success?
      ensures err.Some? ==> err.value == AuthorizationUrl(config).error
      ensures err.None? ==> url == AuthorizationUrl(config).value
      ensures err.None? ==> Valid()
    {
      url := BaseUrl;
      ghost var done: seq<string> := [];
      err := AddToUrl(config.clientId, "client_id", false, done);
      if err.Some? { return; }
      assert done + Optional("client_id", config.clientId) == Optional("client_id", config.clientId);
      done := Optional("client_id", config.clientId);
      err := AddToUrl(config.responseType, "response_type", false, done);
      if err.Some? { return; }
      done := done + Optional("response_type", config.responseType);
      var redirect := QuoteArg(config.redirectUri);
      if redirect.Failure? { return Some(redirect.error); }
      err := AddToUrl(Some(redirect.value), "redirect_uri", false, done);
      done := done + Optional("redirect_uri", Some(redirect.value));
      err := AddToUrl(config.state, "state", true, done);
      done := done + Optional("state", config.state);
      var scope := QuoteArg(config.scope);
      if scope.Failure? { return Some(scope.error); }
      err := AddToUrl(Some(scope.value), "scope", true, done);
      done := done + Optional("scope", Some(scope.value));
      err := AddToUrl(config.showDialog, "show_dialog", true, done);
      done := done + Optional("show_dialog", config.showDialog);
      assert done == UrlFields(config);
      TrailingAmpersand(done);
      url := url[..|url| - 1];
    }

    /** `_load_token_cache`: read the file when it exists; otherwise keep what was loaded. */
    method LoadTokenCache()
      modifies this`tokenCache
      ensures tokenCache == Loaded(old(tokenCache), disk.contents)
    {
      if disk.contents.Some? {
        tokenCache := disk.contents;
      }
    }

    /** `_write_token_to_cache`: overwrite the file with the response stamped at `now`; the
        loaded `token_cache` is not touched. */
    method WriteTokenToCache(token: Token, now: int)
      modifies disk
      ensures disk.contents == Some(Stamp(token, now))
    {
      disk.contents := Some(Stamp(token, now));
    }

    /** `_remove_token_cache`: delete the file and forget the loaded token; a missing file
        raises before anything changes. */
    method RemoveTokenCache() returns (err: Option<Error>)
      modifies disk, this`tokenCache
      ensures old(disk.contents).None? ==>
                err == Some(FileNotFound(CacheFileName)) && disk.contents == None && tokenCache == old(tokenCache)
      ensures old(disk.contents).Some? ==> err == None && disk.contents == None && tokenCache == None
    {
      if disk.contents.None? {
        return Some(FileNotFound(CacheFileName));
      }
      disk.contents := None;
      tokenCache := None;
      err := None;
    }

    /** `get_token`: whenever a cache is loaded (valid or not) return `None` without listening;
        otherwise listen for at most `MaxNumRequests` requests and return the captured code.
        `browser` is the stream of requests a newly bound server would receive. */
    method GetToken(browser: nat -> Query) returns (code: Option<string>)
      modifies this`tokenCache, this`server, server
      ensures tokenCache == Loaded(old(tokenCache), disk.contents)
      ensures tokenCache.Some? ==>
                code == None && server == old(server) && (server != null ==> server.State() == old(server.State()))
      ensures tokenCache.None? ==>
                && server != null
                && (old(server) == null ==> fresh(server))
                && (old(server) != null ==> server == old(server))
                && server.State() == Run(old(ListenerOf(server, browser)), MaxNumRequests)
                && code == server.accessCode
    {
      LoadTokenCache();
      if tokenCache.Some? {
        return None;
      }
      if server == null {
        server := new SpotifyHTTPServer(browser);
      }
      var s := server;
      ghost var start := s.State();
      var i := 0;
      while s.accessCode.None? && i < MaxNumRequests
        modifies s
        invariant 0 <= i <= MaxNumRequests
        invariant s.incoming == start.incoming
        invariant Run(s.State(), MaxNumRequests - i) == Run(start, MaxNumRequests)
        decreases MaxNumRequests - i
      {
        s.HandleRequest();
        i := i + 1;
      }
      code := s.accessCode;
    }

    /** The first half of `obtain_authorization`, as `Outcome` describes it. A caller's code is
        exchanged directly; without one the cache is loaded and `PrepareFromCache` decides. */
    method Prepare(bearer: Option<string>, now: int, browser: nat -> Query) returns (p: Prepared)
      modifies this`tokenCache, this`server, server, disk
      ensures p == Outcome(bearer, old(tokenCache), old(disk.contents), old(ListenerOf(server, browser)), now, config)
      ensures Reauthorizes(bearer, old(tokenCache), old(disk.contents), now) && old(disk.contents).Some? ==>
                tokenCache == None && server != null
                && server.State() == Run(old(ListenerOf(server, browser)), MaxNumRequests)
      ensures !(Reauthorizes(bearer, old(tokenCache), old(disk.contents), now) && old(disk.contents).Some?) ==>
                tokenCache == Consulted(bearer, old(tokenCache), old(disk.contents))
      ensures !(Reauthorizes(bearer, old(tokenCache), old(disk.contents), now) && old(disk.contents).Some?) ==>
                server == old(server) && (server != null ==> server.State() == old(server.State()))
      ensures disk.contents == (if Reauthorizes(bearer, old(tokenCache), old(disk.contents), now) then None
                                else old(disk.contents))
    {
      if bearer.Some? {
        return Post(AccessRequest(bearer, config));
      }
      ghost var listener := ListenerOf(server, browser);
      LoadTokenCache();
      LoadAgain(old(tokenCache), disk.contents, listener, now, config);
      p := PrepareFromCache(now, browser);
    }

    /** The branches taken on the loaded cache: a valid token is answered from it; a stale one
        with a refresh token gives a refresh request with Basic credentials; a stale one without
        is removed and `Reauthorize` runs the browser flow. */
    method PrepareFromCache(now: int, browser: nat -> Query) returns (p: Prepared)
      requires disk.contents.Some? ==> tokenCache == disk.contents
      modifies this`tokenCache, this`server, server, disk
      ensures p == Outcome(None, old(tokenCache), old(disk.contents), old(ListenerOf(server, browser)), now, config)
      ensures Reauthorizes(None, old(tokenCache), old(disk.contents), now) && old(disk.contents).Some? ==>
                tokenCache == None && server != null
                && server.State() == Run(old(ListenerOf(server, browser)), MaxNumRequests)
      ensures !(Reauthorizes(None, old(tokenCache), old(disk.contents), now) && old(disk.contents).Some?) ==>
                tokenCache == old(tokenCache)
      ensures !(Reauthorizes(None, old(tokenCache), old(disk.contents), now) && old(disk.contents).Some?) ==>
                server == old(server) && (server != null ==> server.State() == old(server.State()))
      ensures disk.contents == (if Reauthorizes(None, old(tokenCache), old(disk.contents), now) then None
                                else old(disk.contents))
    {
      ghost var plan := Plan(None, tokenCache, now);
      assert PlanFor(None, tokenCache, disk.contents, now) == plan;
      var valid := IsValidToken(tokenCache, now);
      if valid.Failure? {
        assert plan == Failure(valid.error);
        return Answered(Failure(valid.error));
      }
      if valid.value {
        assert plan == (match AccessTokenOf(tokenCache.value)
                        case Success(a) => Success(UseCached(a))
                        case Failure(e) => Failure(e));
        return Answered(AccessTokenOf(tokenCache.value));
      }
      if tokenCache.None? {
        assert plan == Failure(TypeError(NoneNotIterable));
        return Answered(Failure(TypeError(NoneNotIterable)));
      }
      if "refresh_token" in tokenCache.value {
        assert plan == Success(Refresh(tokenCache.value["refresh_token"]));
        p := PrepareRefresh(tokenCache.value["refresh_token"]);
        return;
      }
      assert plan == Success(Step.Reauthorize);
      p := Reauthorize(browser);
    }

    /** The refresh branch: the refresh body, then the Basic header added to the request next
        to the form content type; building the header raises when id or secret is missing. */
    method PrepareRefresh(refreshToken: Json) returns (p: Prepared)
      ensures p == RefreshOutcome(refreshToken, config)
    {
      var form := RefreshPairs(refreshToken);
      var header := RefreshHeader(config);
      if header.Failure? {
        return Answered(Failure(header.error));
      }
      var headers := map[header.value.0 := header.value.1];
      headers := headers["Content-type" := FormContentType];
      return Post(TokenRequest(TokenUrl, headers, form));
    }

    /** A stale cache without a refresh token: remove the file (raising when it is missing), then
        run `get_token`, which now finds no cache and listens, and exchange the code it returns,
        `None` included. */
    method Reauthorize(browser: nat -> Query) returns (p: Prepared)
      modifies this`tokenCache, this`server, server, disk
      ensures old(disk.contents).None? ==>
                p == Answered(Failure(FileNotFound(CacheFileName))) && tokenCache == old(tokenCache)
                && server == old(server) && (server != null ==> server.State() == old(server.State()))
      ensures old(disk.contents).Some? ==>
                tokenCache == None && server != null
                && server.State() == Run(old(ListenerOf(server, browser)), MaxNumRequests)
                && p == Post(AccessRequest(server.accessCode, config))
      ensures disk.contents == None
    {
      var err := RemoveTokenCache();
      if err.Some? {
        return Answered(Failure(err.value));
      }
      var code := GetToken(browser);
      p := Post(AccessRequest(code, config));
    }

    /** `obtain_authorization`: answer as `Outcome` decides, or post its request to the token
        endpoint. Every response the endpoint gives is written to the cache stamped at `later`
        and its `access_token` returned; a failed request is not caught. */
    method ObtainAuthorization(bearer: Option<string>, now: int, later: int, browser: nat -> Query,
                               endpoint: TokenRequest -> Result<Token, Error>)
      returns (r: Result<Json, Error>, posted: Option<TokenRequest>)
      modifies this`tokenCache, this`server, server, disk
      ensures var p := Outcome(bearer, old(tokenCache), old(disk.contents), old(ListenerOf(server, browser)), now, config);
              p.Answered? ==> r == p.result && posted == None
      ensures var p := Outcome(bearer, old(tokenCache), old(disk.contents), old(ListenerOf(server, browser)), now, config);
              p.Post? ==> posted == Some(p.request)
      ensures var removed := Reauthorizes(bearer, old(tokenCache), old(disk.contents), now);
              posted == None ==> disk.contents == (if removed then None else old(disk.contents))
      ensures var removed := Reauthorizes(bearer, old(tokenCache), old(disk.contents), now);
              posted != None ==>
                match endpoint(posted.value)
                case Failure(e) =>
                  r == Failure(e) && disk.contents == (if removed then None else old(disk.contents))
                case Success(response) =>
                  r == AccessTokenOf(response) && disk.contents == Some(Stamp(response, later))
      ensures Reauthorizes(bearer, old(tokenCache), old(disk.contents), now) && old(disk.contents).Some? ==>
                tokenCache == None && server != null
                && server.State() == Run(old(ListenerOf(server, browser)), MaxNumRequests)
      ensures !(Reauthorizes(bearer, old(tokenCache), old(disk.contents), now) && old(disk.contents).Some?) ==>
                tokenCache == Consulted(bearer, old(tokenCache), old(disk.contents))
      ensures !(Reauthorizes(bearer, old(tokenCache), old(disk.contents), now) && old(disk.contents).Some?) ==>
                server == old(server) && (server != null ==> server.State() == old(server.State()))
    {
      var p := Prepare(bearer, now, browser);
      if p.Answered? {
        return p.result, None;
      }
      posted := Some(p.request);
      var response := endpoint(p.request);
      if response.Failure? {
        return Failure(response.error), posted;
      }
      WriteTokenToCache(response.value, later);
      r := AccessTokenOf(response.value);
    }
  }
}
