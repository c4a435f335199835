/** Authorisation against the music service: the PKCE pair, the authorisation
    URI, the one-shot redirect listener, the code and refresh-token exchanges
    with the token endpoint, the token cache and the orchestrator `auth`.
    Randomness, hashing, the network, the file system and JSON are inputs. */
module Auth {
  import opened Js
  import opened Http

  const Port := 4242
  const ClientId := "c2c4830c1bd64f0a9cb932091a365d0c"
  const Scopes := "user-library-modify user-read-private"
  const AuthorizeEndpoint := "https://accounts.spotify.com/authorize"
  const TokenEndpoint := "https://accounts.spotify.com/api/token"
  const RedirectUri := "http://localhost:" + IntToString(Port) + "/oauth2/callback"
  const LoginPath := "/login"
  const CallbackPath := "/oauth2/callback"
  const RedirectedWithoutToken := "Spotify redirected without token: "
  const NoTokens := "Couldn't get tokens."

  /** The token bundle, read from a token-endpoint body without any check. */
  datatype Tokens = Tokens(accessToken: string, tokenType: string, scope: string, expiresIn: int, refreshToken: string)

  datatype Pkce = Pkce(codeVerifier: string, codeChallenge: string)

  // ---------------------------------------------------------------------------
  // PKCE: from the base64 text of the SHA-256 digest to the S256 challenge

  /** s.replace(/x/g, y) for a one-character pattern. */
  function ReplaceAll(s: string, from: char, to: char): (r: string)
    ensures |r| == |s|
    ensures forall i :: 0 <= i < |s| ==> r[i] == if s[i] == from then to else s[i]
  {
    if |s| == 0 then "" else [if s[0] == from then to else s[0]] + ReplaceAll(s[1..], from, to)
  }

  /** Replacing back undoes a replacement whose target character was absent. */
  lemma ReplaceAllUndone(s: string, from: char, to: char)
    requires to !in s
    ensures ReplaceAll(ReplaceAll(s, from, to), to, from) == s
  {
    var r := ReplaceAll(ReplaceAll(s, from, to), to, from);
    assert forall i :: 0 <= i < |s| ==> r[i] == s[i];
  }

  /** s.replace(/c+$/, ""): s without the run of c at its end. */
  function TrimEnd(s: string, c: char): (r: string)
    ensures |r| <= |s| && r == s[..|r|]
    ensures forall i :: |r| <= i < |s| ==> s[i] == c
    ensures |r| == 0 || r[|r| - 1] != c
  {
    if |s| > 0 && s[|s| - 1] == c then TrimEnd(s[..|s| - 1], c) else s
  }

  /** Trimming depends only on where c occurs. */
  lemma {:induction false} TrimEndSameLength(s: string, t: string, c: char)
    requires |s| == |t|
    requires forall i :: 0 <= i < |s| ==> (s[i] == c <==> t[i] == c)
    ensures |TrimEnd(s, c)| == |TrimEnd(t, c)|
  {
    if |s| > 0 && s[|s| - 1] == c {
      TrimEndSameLength(s[..|s| - 1], t[..|t| - 1], c);
    }
  }

  /** The base64url alphabet's character for a standard base64 character. */
  function UrlSafe(c: char): char
  {
    if c == '+' then '-' else if c == '/' then '_' else c
  }

  /** generatePkce's rewriting of base64 text: '+' to '-', '/' to '_', then the
      trailing '=' padding dropped (section 5 of RFC 4648). */
  function Base64Url(b64: string): (r: string)
    ensures |r| <= |b64|
    ensures forall i :: 0 <= i < |r| ==> r[i] == UrlSafe(b64[i])
    ensures forall i :: |r| <= i < |b64| ==> b64[i] == '='
    ensures '+' !in r && '/' !in r
    ensures |r| == 0 || r[|r| - 1] != '='
  {
    var swapped := ReplaceAll(ReplaceAll(b64, '+', '-'), '/', '_');
    var r := TrimEnd(swapped, '=');
    assert forall i :: 0 <= i < |r| ==> r[i] == swapped[i];
    r
  }

  predicate IsBase64Char(c: char)
  {
    'A' <= c <= 'Z' || 'a' <= c <= 'z' || '0' <= c <= '9' || c == '+' || c == '/'
  }

  /** Padded base64 text (section 4 of RFC 4648): alphabet characters, then at
      most two '=', in all a multiple of four characters. */
  predicate IsPaddedBase64(s: string)
  {
    var body := TrimEnd(s, '=');
    |s| % 4 == 0 && |s| - |body| <= 2 && forall i :: 0 <= i < |body| ==> IsBase64Char(body[i])
  }

  /** n padding characters. */
  function Padding(n: nat): (p: string)
    ensures |p| == n && forall i :: 0 <= i < n ==> p[i] == '='
  {
    seq(n, _ => '=')
  }

  /** How many '=' bring a text of length n to a multiple of four. */
  function PadLength(n: nat): (k: nat)
    ensures k < 4 && (n + k) % 4 == 0
  {
    (4 - n % 4) % 4
  }

  /** The inverse rewriting: back to the standard alphabet, padded with '='
      to a multiple of four. */
  function PaddedBase64(url: string): string
  {
    ReplaceAll(ReplaceAll(url, '-', '+'), '_', '/') + Padding(PadLength(|url|))
  }

  /** Rewriting keeps the positions of '=' and of nothing else. */
  lemma Base64UrlKeepsBody(b64: string)
    requires IsPaddedBase64(b64)
    ensures Base64Url(b64) == ReplaceAll(ReplaceAll(TrimEnd(b64, '='), '+', '-'), '/', '_')
  {
    var body := TrimEnd(b64, '=');
    var swapped := ReplaceAll(ReplaceAll(b64, '+', '-'), '/', '_');
    TrimEndSameLength(b64, swapped, '=');
    var r := Base64Url(b64);
    var target := ReplaceAll(ReplaceAll(body, '+', '-'), '/', '_');
    assert |r| == |target|;
    forall i | 0 <= i < |r|
      ensures r[i] == target[i]
    {
      assert body[i] == b64[i];
    }
  }

  /** The padding that PaddedBase64 restores is the padding that was dropped. */
  lemma PaddingRestored(b64: string)
    requires IsPaddedBase64(b64)
    ensures PadLength(|TrimEnd(b64, '=')|) == |b64| - |TrimEnd(b64, '=')|
  {
    var body := TrimEnd(b64, '=');
    var n := |b64| - |body|;
    assert |body| == 4 * (|b64| / 4) - n;
  }

  /** Undoing the alphabet swap restores every base64 character. */
  lemma AlphabetSwapUndone(body: string)
    requires forall i :: 0 <= i < |body| ==> IsBase64Char(body[i])
    ensures ReplaceAll(ReplaceAll(ReplaceAll(ReplaceAll(body, '+', '-'), '/', '_'), '-', '+'), '_', '/') == body
  {
    var once := ReplaceAll(body, '+', '-');
    var twice := ReplaceAll(once, '/', '_');
    var back := ReplaceAll(twice, '-', '+');
    var whole := ReplaceAll(back, '_', '/');
    forall i | 0 <= i < |body| ensures whole[i] == body[i] {
      assert IsBase64Char(body[i]);
    }
  }

  /** Text that ends in '=' only after its trimmed part is that part followed
      by the '=' that were trimmed. */
  lemma TrimmedAndPadding(b64: string)
    ensures var body := TrimEnd(b64, '='); b64 == body + Padding(|b64| - |body|)
  {
    var body := TrimEnd(b64, '=');
    var pad := Padding(|b64| - |body|);
    assert forall i :: 0 <= i < |b64| ==> b64[i] == (body + pad)[i];
  }

  /** PaddedBase64 of a url-safe text whose swapped-back form and padding are
      known. */
  lemma PaddedFromParts(url: string, body: string, b64: string)
    requires ReplaceAll(ReplaceAll(url, '-', '+'), '_', '/') == body
    requires PadLength(|body|) == |b64| - |body|
    requires b64 == body + Padding(|b64| - |body|)
    ensures PaddedBase64(url) == b64
  {
    assert |url| == |body|;
  }

  /** The challenge is the digest's base64 text in the other alphabet: undoing
      the rewriting gives the padded base64 text back. */
  lemma {:induction false} Base64UrlRoundTrip(b64: string)
    requires IsPaddedBase64(b64)
    ensures PaddedBase64(Base64Url(b64)) == b64
  {
    var body := TrimEnd(b64, '=');
    Base64UrlKeepsBody(b64);
    PaddingRestored(b64);
    AlphabetSwapUndone(body);
    TrimmedAndPadding(b64);
    var url := Base64Url(b64);
    var swapped := ReplaceAll(ReplaceAll(body, '+', '-'), '/', '_');
    assert url == swapped;
    PaddedFromParts(url, body, b64);
  }

  /** The verifier alphabet of section 4.1 of RFC 7636. */
  predicate IsUnreserved(c: char)
  {
    'A' <= c <= 'Z' || 'a' <= c <= 'z' || '0' <= c <= '9' || c == '-' || c == '.' || c == '_' || c == '~'
  }

  /** What crypto.randomUUID returns: 36 characters, lower-case hex digits with
      '-' at offsets 8, 13, 18 and 23. */
  predicate IsUuid(s: string)
  {
    |s| == 36 && forall i :: 0 <= i < 36 ==>
      if i == 8 || i == 13 || i == 18 || i == 23 then s[i] == '-' else '0' <= s[i] <= '9' || 'a' <= s[i] <= 'f'
  }

  /** Two UUIDs run together make a code verifier as section 4.1 of RFC 7636
      asks: 43 to 128 unreserved characters. */
  lemma UuidPairIsVerifier(uuid1: string, uuid2: string)
    requires IsUuid(uuid1) && IsUuid(uuid2)
    ensures var v := uuid1 + uuid2; 43 <= |v| <= 128 && forall i :: 0 <= i < |v| ==> IsUnreserved(v[i])
  {
    var v := uuid1 + uuid2;
    forall i | 0 <= i < |v| ensures IsUnreserved(v[i]) {
      if i < 36 {
        assert v[i] == uuid1[i];
      } else {
        assert v[i] == uuid2[i - 36];
      }
    }
  }

  /** generatePkce. The two UUIDs and the base64 text of a SHA-256 digest
      (sha256Base64) come from outside: the verifier is the two UUIDs run
      together, the challenge the digest of the verifier in base64url. */
  function GeneratePkce(uuid1: string, uuid2: string, sha256Base64: string -> string): (p: Pkce)
    ensures p.codeVerifier == uuid1 + uuid2
    ensures IsUuid(uuid1) && IsUuid(uuid2) ==>
      43 <= |p.codeVerifier| <= 128 && forall i :: 0 <= i < |p.codeVerifier| ==> IsUnreserved(p.codeVerifier[i])
    ensures '+' !in p.codeChallenge && '/' !in p.codeChallenge
    ensures |p.codeChallenge| == 0 || p.codeChallenge[|p.codeChallenge| - 1] != '='
    ensures IsPaddedBase64(sha256Base64(p.codeVerifier)) ==> PaddedBase64(p.codeChallenge) == sha256Base64(p.codeVerifier)
  {
    var verifier := uuid1 + uuid2;
    var digest := sha256Base64(verifier);
    if IsUuid(uuid1) && IsUuid(uuid2) then UuidPairIsVerifier(uuid1, uuid2); PkceWithDigest(verifier, digest)
    else PkceWithDigest(verifier, digest)
  }

  function PkceWithDigest(verifier: string, digest: string): (p: Pkce)
    ensures p.codeVerifier == verifier
    ensures IsPaddedBase64(digest) ==> PaddedBase64(p.codeChallenge) == digest
  {
    if IsPaddedBase64(digest) then Base64UrlRoundTrip(digest); Pkce(verifier, Base64Url(digest))
    else Pkce(verifier, Base64Url(digest))
  }

  // ---------------------------------------------------------------------------
  // The authorisation request (section 4.1.1 of RFC 6749)

  /** The query of the authorization URI, in the order the source appends it. */
  function AuthQuery(codeChallenge: string): seq<Entry>
  {
    [Entry("client_id", ClientId),
     Entry("response_type", "code"),
     Entry("redirect_uri", RedirectUri),
     Entry("code_challenge_method", "S256"),
     Entry("code_challenge", codeChallenge),
     Entry("scope", Scopes)]
  }

  /** The client and redirect parameters of the authorization request. */
  lemma AuthQueryNamesClient(codeChallenge: string)
    ensures Get(AuthQuery(codeChallenge), "client_id") == Some(ClientId)
    ensures Get(AuthQuery(codeChallenge), "response_type") == Some("code")
    ensures Get(AuthQuery(codeChallenge), "redirect_uri") == Some(RedirectUri)
  {
    var query := AuthQuery(codeChallenge);
    GetAt(query, 0); GetAt(query, 1); GetAt(query, 2);
  }

  /** The PKCE parameters of the authorization request. */
  lemma AuthQueryCarriesChallenge(codeChallenge: string)
    ensures Get(AuthQuery(codeChallenge), "code_challenge_method") == Some("S256")
    ensures Get(AuthQuery(codeChallenge), "code_challenge") == Some(codeChallenge)
  {
    var query := AuthQuery(codeChallenge);
    GetAt(query, 3); GetAt(query, 4);
  }

  /** The scopes the authorization request asks for. */
  lemma AuthQueryAsksScopes(codeChallenge: string)
    ensures Get(AuthQuery(codeChallenge), "scope") == Some(Scopes)
  {
    GetAt(AuthQuery(codeChallenge), 5);
  }

  /** getAuthUri: the authorize endpoint with the client, the code response
      type, the loopback redirect, the S256 challenge and the scopes. */
  function GetAuthUri(codeChallenge: string): (u: Url)
    ensures u.prefix == AuthorizeEndpoint + "?"
    ensures |u.query| == 6
    ensures Get(u.query, "client_id") == Some(ClientId)
    ensures Get(u.query, "response_type") == Some("code")
    ensures Get(u.query, "redirect_uri") == Some(RedirectUri)
    ensures Get(u.query, "code_challenge_method") == Some("S256")
    ensures Get(u.query, "code_challenge") == Some(codeChallenge)
    ensures Get(u.query, "scope") == Some(Scopes)
  {
    AuthQueryNamesClient(codeChallenge);
    AuthQueryCarriesChallenge(codeChallenge);
    AuthQueryAsksScopes(codeChallenge);
    Url(AuthorizeEndpoint + "?", AuthQuery(codeChallenge))
  }

  // ---------------------------------------------------------------------------
  // The token endpoint

  /** What response.json() gives for a token-endpoint reply: a falsy JSON
      value, or anything truthy, taken as Tokens without a check. */
  datatype Json = Falsy | Truthy(tokens: Tokens)

  /** A token-endpoint POST: the promise rejects (the network fails or the body
      is not JSON) or it yields the parsed body. The HTTP status is never read,
      so it is not part of the model. */
  datatype Fetched = Rejected(reason: string) | Fulfilled(body: Json)

  /** exchangeToken's check of the callback query and the form it posts
      (section 4.1.3 of RFC 6749 with the PKCE verifier). It throws when `code`
      is missing or empty, or when `error` is present and not empty. */
  function CodeExchangeForm(query: seq<Entry>, codeVerifier: string): (r: Result<seq<Entry>>)
    ensures r.Ok? <==> TruthyText(Get(query, "code")) && !TruthyText(Get(query, "error"))
    ensures r.Err? ==> r.message == RedirectedWithoutToken + Interpolate(Get(query, "error"))
    ensures r.Ok? ==> |r.value| == 5
    ensures r.Ok? ==> Get(r.value, "client_id") == Some(ClientId)
    ensures r.Ok? ==> Get(r.value, "grant_type") == Some("authorization_code")
    ensures r.Ok? ==> Get(r.value, "code") == Get(query, "code")
    ensures r.Ok? ==> Get(r.value, "redirect_uri") == Some(RedirectUri)
    ensures r.Ok? ==> Get(r.value, "code_verifier") == Some(codeVerifier)
  {
    var code := Get(query, "code");
    var error := Get(query, "error");
    if !TruthyText(code) || TruthyText(error) then Err(RedirectedWithoutToken + Interpolate(error))
    else
      ExchangeFormGrant(code.value, codeVerifier);
      ExchangeFormRedirect(code.value, codeVerifier);
      Ok(ExchangeForm(code.value, codeVerifier))
  }

  /** The form exchangeToken posts, in the order the source writes it. */
  function ExchangeForm(code: string, codeVerifier: string): seq<Entry>
  {
    [Entry("client_id", ClientId),
     Entry("grant_type", "authorization_code"),
     Entry("code", code),
     Entry("redirect_uri", RedirectUri),
     Entry("code_verifier", codeVerifier)]
  }

  /** The client and the grant of the code exchange. */
  lemma ExchangeFormGrant(code: string, codeVerifier: string)
    ensures Get(ExchangeForm(code, codeVerifier), "client_id") == Some(ClientId)
    ensures Get(ExchangeForm(code, codeVerifier), "grant_type") == Some("authorization_code")
    ensures Get(ExchangeForm(code, codeVerifier), "code") == Some(code)
  {
    var form := ExchangeForm(code, codeVerifier);
    GetAt(form, 0); GetAt(form, 1); GetAt(form, 2);
  }

  /** The redirect URI and the PKCE verifier of the code exchange. */
  lemma ExchangeFormRedirect(code: string, codeVerifier: string)
    ensures Get(ExchangeForm(code, codeVerifier), "redirect_uri") == Some(RedirectUri)
    ensures Get(ExchangeForm(code, codeVerifier), "code_verifier") == Some(codeVerifier)
  {
    var form := ExchangeForm(code, codeVerifier);
    GetAt(form, 3); GetAt(form, 4);
  }

  /** The code exchange names the same redirect URI as the authorisation
      request did, as section 4.1.3 of RFC 6749 requires. */
  lemma RedirectUriAgrees(codeChallenge: string, query: seq<Entry>, codeVerifier: string)
    requires CodeExchangeForm(query, codeVerifier).Ok?
    ensures Get(CodeExchangeForm(query, codeVerifier).value, "redirect_uri")
         == Get(GetAuthUri(codeChallenge).query, "redirect_uri")
  {
  }

  /** getFreshTokens' form: the refresh grant of section 6 of RFC 6749. */
  function RefreshForm(tokens: Tokens): (form: seq<Entry>)
    ensures |form| == 3
    ensures Get(form, "client_id") == Some(ClientId)
    ensures Get(form, "grant_type") == Some("refresh_token")
    ensures Get(form, "refresh_token") == Some(tokens.refreshToken)
  {
    var form := [Entry("client_id", ClientId), Entry("grant_type", "refresh_token"), Entry("refresh_token", tokens.refreshToken)];
    GetAt(form, 0); GetAt(form, 1); GetAt(form, 2);
    form
  }

  // ---------------------------------------------------------------------------
  // The redirect listener

  /** A request the listener receives: its path and its query parameters. */
  datatype Request = Request(path: string, query: seq<Entry>)

  /** A response the listener sends: status, body and Location header. */
  datatype Response = Response(status: int, body: string, location: Option<Url>)

  predicate IsCallback(r: Request)
  {
    r.path == CallbackPath
  }

  /** The listener's switch on the request path. */
  function Route(path: string, authUri: Url): (r: Response)
    ensures r.status == 302 <==> path == LoginPath
    ensures r.status == 200 <==> path == CallbackPath
    ensures r.status == 404 <==> path != LoginPath && path != CallbackPath
    ensures r.location.Some? <==> r.status == 302
    ensures r.status == 302 ==> r.location == Some(authUri) && r.body == ""
    ensures r.status == 200 ==> r.body == "Success!"
    ensures r.status == 404 ==> r.body == ""
  {
    if path == LoginPath then Response(302, "", Some(authUri))
    else if path == CallbackPath then Response(200, "Success!", None)
    else Response(404, "", None)
  }

  /** What getTokens makes of the exchange it awaited: a rejection escapes as
      the thrown error, a falsy body ends in "Couldn't get tokens.". */
  function Captured(reply: Fetched): (r: Result<Tokens>)
    ensures r.Ok? <==> reply.Fulfilled? && reply.body.Truthy?
    ensures r.Ok? ==> r.value == reply.body.tokens
    ensures reply.Fulfilled? && reply.body.Falsy? ==> r == Err(NoTokens)
    ensures reply.Rejected? ==> r == Err(reply.reason)
  {
    match reply
    case Rejected(reason) => Err(reason)
    case Fulfilled(Falsy) => Err(NoTokens)
    case Fulfilled(Truthy(tokens)) => Ok(tokens)
  }

  /** What the first callback leads to: the POSTed forms and the result. A
      query that fails the check throws before anything is POSTed. */
  function Exchange(query: seq<Entry>, codeVerifier: string, reply: Fetched): (seq<seq<Entry>>, Result<Tokens>)
  {
    match CodeExchangeForm(query, codeVerifier)
    case Err(message) => ([], Err(message))
    case Ok(form) => ([form], Captured(reply))
  }

  /** How one run of the listener over the requests, in the order it serves
      them, ends:
      every request up to and including the first callback is answered by
      Route, and none after it; the first callback's query decides the
      exchange. Without a callback nothing is POSTed and the result is
      "Couldn't get tokens.". */
  ghost predicate ListenerRun(requests: seq<Request>, authUri: Url, codeVerifier: string, reply: Fetched,
                              responses: seq<Response>, posted: seq<seq<Entry>>, result: Result<Tokens>)
  {
    var k := FirstWhere(requests, IsCallback);
    && |responses| == (if k < |requests| then k + 1 else k)
    && (forall i :: 0 <= i < |responses| ==> responses[i] == Route(requests[i].path, authUri))
    && (posted, result) == if k < |requests| then Exchange(requests[k].query, codeVerifier, reply) else ([], Err(NoTokens))
  }

  /** getTokens: serve the requests one by one until the first callback.
      requests is the order in which the listener serves them: each
      connection's requests until it closes, then the next connection's. Its
      end stands for the connection stream ending. `reply` is what the token
      endpoint answers to the code exchange. */
  method GetTokens(requests: seq<Request>, authUri: Url, codeVerifier: string, reply: Fetched)
    returns (responses: seq<Response>, posted: seq<seq<Entry>>, result: Result<Tokens>)
    ensures ListenerRun(requests, authUri, codeVerifier, reply, responses, posted, result)
  {
    responses, posted := [], [];
    var tokens: Json := Falsy;
    var i := 0;
    while i < |requests|
      invariant 0 <= i <= |requests|
      invariant |responses| == i
      invariant forall j :: 0 <= j < i ==> responses[j] == Route(requests[j].path, authUri)
      invariant forall j :: 0 <= j < i ==> !IsCallback(requests[j])
      invariant posted == [] && tokens == Falsy
    {
      var request := requests[i];
      responses := responses + [Route(request.path, authUri)];
      if request.path == CallbackPath {
        assert FirstWhere(requests, IsCallback) == i;
        var form := CodeExchangeForm(request.query, codeVerifier);
        if form.Err? {
          result := Err(form.message);
          return;
        }
        posted := [form.value];
        if reply.Rejected? {
          result := Err(reply.reason);
          return;
        }
        tokens := reply.body;
        break;
      }
      i := i + 1;
    }
    result := if tokens.Truthy? then Ok(tokens.tokens) else Err(NoTokens);
  }

  /** The listener is single-shot: once a callback has arrived, later requests
      change neither the responses nor the exchange nor the result. */
  lemma ListenerSingleShot(requests: seq<Request>, later: seq<Request>, authUri: Url, codeVerifier: string, reply: Fetched,
                           responses: seq<Response>, posted: seq<seq<Entry>>, result: Result<Tokens>)
    requires exists i :: 0 <= i < |requests| && IsCallback(requests[i])
    requires ListenerRun(requests, authUri, codeVerifier, reply, responses, posted, result)
    ensures ListenerRun(requests + later, authUri, codeVerifier, reply, responses, posted, result)
  {
    var k := FirstWhere(requests, IsCallback);
    assert k < |requests|;
    FirstWhereExtend(requests, later, IsCallback);
    assert forall i :: 0 <= i <= k ==> (requests + later)[i] == requests[i];
  }

  /** A first callback whose query lacks a code, or carries an error, throws
      "Spotify redirected without token" and nothing is POSTed. */
  lemma BadCallbackPostsNothing(requests: seq<Request>, authUri: Url, codeVerifier: string, reply: Fetched,
                                responses: seq<Response>, posted: seq<seq<Entry>>, result: Result<Tokens>, k: nat)
    requires ListenerRun(requests, authUri, codeVerifier, reply, responses, posted, result)
    requires k < |requests| && IsCallback(requests[k]) && forall i :: 0 <= i < k ==> !IsCallback(requests[i])
    requires !TruthyText(Get(requests[k].query, "code")) || TruthyText(Get(requests[k].query, "error"))
    ensures posted == []
    ensures result == Err(RedirectedWithoutToken + Interpolate(Get(requests[k].query, "error")))
    ensures |responses| == k + 1 && responses[k] == Response(200, "Success!", None)
  {
    assert FirstWhere(requests, IsCallback) == k;
  }

  /** When the requests end without a callback, every request got a 302 or a
      404, nothing was POSTed and getTokens throws "Couldn't get tokens.". */
  lemma NoCallbackNoTokens(requests: seq<Request>, authUri: Url, codeVerifier: string, reply: Fetched,
                           responses: seq<Response>, posted: seq<seq<Entry>>, result: Result<Tokens>)
    requires ListenerRun(requests, authUri, codeVerifier, reply, responses, posted, result)
    requires forall i :: 0 <= i < |requests| ==> !IsCallback(requests[i])
    ensures posted == [] && result == Err(NoTokens)
    ensures |responses| == |requests|
    ensures forall i :: 0 <= i < |responses| ==> responses[i].status == 302 || responses[i].status == 404
  {
    assert FirstWhere(requests, IsCallback) == |requests|;
  }

  // ---------------------------------------------------------------------------
  // The token cache and the orchestrator

  /** The cache file as tryTokenCache finds it: absent, unreadable or not JSON
      (both end in its catch), or parsed. */
  datatype CacheFile = Missing | Unreadable | Cached(json: Json)

  /** What tryTokenCache did: the refresh form it posted, the body it wrote
      back to the cache, and what it returned (null being Falsy). */
  datatype CacheAttempt = CacheAttempt(refresh: Option<seq<Entry>>, written: Option<Json>, tokens: Json)

  /** tryTokenCache: refresh only from a truthy cached value; cache and return
      the refresh reply's body as it is, whatever its status and whether or not
      it carries a refresh token; fall back to null on every failure. */
  function TryTokenCache(file: CacheFile, reply: Fetched): (r: CacheAttempt)
    ensures r.refresh.Some? <==> file.Cached? && file.json.Truthy?
    ensures r.refresh.Some? ==> r.refresh.value == RefreshForm(file.json.tokens)
    ensures r.written.Some? <==> r.refresh.Some? && reply.Fulfilled?
    ensures r.written.Some? ==> r.written.value == reply.body && r.tokens == reply.body
    ensures r.tokens.Truthy? ==> r.written == Some(r.tokens)
    ensures r.tokens.Falsy? <==> !file.Cached? || file.json.Falsy? || reply.Rejected? || reply.body.Falsy?
  {
    match file
    case Missing => CacheAttempt(None, None, Falsy)
    case Unreadable => CacheAttempt(None, None, Falsy)
    case Cached(Falsy) => CacheAttempt(None, None, Falsy)
    case Cached(Truthy(cached)) =>
      var form := RefreshForm(cached);
      match reply
      case Rejected(_) => CacheAttempt(Some(form), None, Falsy)
      case Fulfilled(body) => CacheAttempt(Some(form), Some(body), body)
  }

  /** auth: the cache first; when it yields nothing truthy, the interactive
      flow with a fresh PKCE pair and the listener, whose tokens are cached.
      Outputs: whether the listener was started, its responses, every form
      POSTed to the token endpoint in order, every value written to the cache
      in order, and the tokens or the thrown error. */
  method Authenticate(file: CacheFile, refreshReply: Fetched,
                      uuid1: string, uuid2: string, sha256Base64: string -> string,
                      requests: seq<Request>, exchangeReply: Fetched)
    returns (listened: bool, responses: seq<Response>, posted: seq<seq<Entry>>, written: seq<Json>, result: Result<Tokens>)
    ensures var cache := TryTokenCache(file, refreshReply);
      && (listened <==> cache.tokens.Falsy?)
      && |posted| >= |ToSeq(cache.refresh)| && posted[..|ToSeq(cache.refresh)|] == ToSeq(cache.refresh)
      && (!listened ==>
            && result == Ok(cache.tokens.tokens) && responses == [] && posted == ToSeq(cache.refresh)
            && written == [cache.tokens])
      && (listened ==>
            var pkce := GeneratePkce(uuid1, uuid2, sha256Base64);
            && ListenerRun(requests, GetAuthUri(pkce.codeChallenge), pkce.codeVerifier, exchangeReply,
                           responses, posted[|ToSeq(cache.refresh)|..], result)
            && written == ToSeq(cache.written) + (if result.Ok? then [Truthy(result.value)] else []))
  {
    var cache := TryTokenCache(file, refreshReply);
    if cache.tokens.Truthy? {
      return false, [], ToSeq(cache.refresh), [cache.tokens], Ok(cache.tokens.tokens);
    }
    var pkce := GeneratePkce(uuid1, uuid2, sha256Base64);
    var authUri := GetAuthUri(pkce.codeChallenge);
    listened := true;
    var exchanged;
    responses, exchanged, result := GetTokens(requests, authUri, pkce.codeVerifier, exchangeReply);
    posted := ToSeq(cache.refresh) + exchanged;
    assert posted[|ToSeq(cache.refresh)|..] == exchanged;
    written := ToSeq(cache.written) + if result.Ok? then [Truthy(result.value)] else [];
  }
}
