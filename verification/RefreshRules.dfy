/** One refresh as a function of what the outside does: the specification of Manager.Refresh. */
module RefreshRules {
  import opened Common
  import opened Credentials

  /** The answer to the OIDC discovery request. */
  datatype Discovery = BadIssuer | NoAnswer | BadStatus(code: int) | BadDocument | Endpoint(url: string)

  /** The answer to the token request. */
  datatype Post =
    | BadEndpoint                             // the request cannot be built
    | NoReply
    | Reply(status: int, body: Option<Tokens>)  // None: the body does not parse

  /** The outside of one refresh: how long the clock runs before each time.Now(), and every answer. */
  datatype Env = Env(
    guardDelay: nat,
    discovery: Discovery,
    post: Post,
    answerDelay: nat,
    persistOk: bool,
    writeOk: bool)

  datatype RefreshError =
    | NoRefreshToken | DiscoveryFailed | RequestFailed | TransportFailed
    | TokenStatus(code: int) | BadTokenBody | NoAccessToken

  datatype Outcome = Skipped | Failed(error: RefreshError) | Renewed(tokens: Tokens) {
    function Failure(): Option<RefreshError> {
      if Failed? then Some(error) else None
    }
  }

  function TrimRightSlash(s: string): string
  {
    if s != "" && s[|s| - 1] == '/' then TrimRightSlash(s[..|s| - 1]) else s
  }

  /** discoverTokenEndpoint: the cached endpoint, the discovered one, or the common fallback path. */
  function TokenURL(cached: string, issuer: string, d: Discovery): Option<string> {
    if cached != "" then Some(cached)
    else match d
      case BadIssuer => None
      case Endpoint(url) => Some(if url != "" then url else TrimRightSlash(issuer) + "/oauth/token")
      case _ => Some(TrimRightSlash(issuer) + "/oauth/token")
  }

  /** What the token request leads to, once it is built. */
  function PostOutcome(p: Post): Outcome {
    match p
    case BadEndpoint => Failed(RequestFailed)
    case NoReply => Failed(TransportFailed)
    case Reply(status, body) =>
      if status < 200 || status >= 300 then Failed(TokenStatus(status))
      else if body.None? then Failed(BadTokenBody)
      else if body.value.access == "" then Failed(NoAccessToken)
      else Renewed(body.value)
  }

  /** refresh, given that the URL is known (`found`) and `at` is the guard's reading of the clock. */
  function RefreshOutcome(e: Entry, force: bool, at: Time, skew: int, found: bool, p: Post): Outcome {
    if FreshEnough(e, force, at, skew) then Skipped
    else if Blank(e.refreshToken) then Failed(NoRefreshToken)
    else if !found then Failed(DiscoveryFailed)
    else PostOutcome(p)
  }

  /** The refresh gets as far as sending the token request. */
  predicate Posts(e: Entry, force: bool, at: Time, skew: int, found: bool, p: Post) {
    !FreshEnough(e, force, at, skew) && !Blank(e.refreshToken) && found && !p.BadEndpoint?
  }

  /** When a refresh renews the token: not if it is fresh, and else exactly when there is a refresh token, an endpoint,
      and a 2xx answer that parses with an access token. */
  lemma RenewedIff(e: Entry, force: bool, at: Time, skew: int, found: bool, p: Post, stamped: Time)
    ensures var o := RefreshOutcome(e, force, at, skew, found, p);
            var due := force || e.expiresAt == 0 || e.expiresAt <= at + skew;
            && (o.Skipped? <==> !due)
            && (o.Renewed? <==> due && !Blank(e.refreshToken) && found && Grants(p))
            && (o.Renewed? ==> o.tokens == p.body.value && RenewedBy(e, o.tokens, stamped, Granted(e, o.tokens, stamped)))
            && (Posts(e, force, at, skew, found, p) <==> due && !Blank(e.refreshToken) && found && !p.BadEndpoint?)
  {
  }

  /** A 2xx answer that parses and has an access token. */
  predicate Grants(p: Post) {
    p.Reply? && 200 <= p.status < 300 && p.body.Some? && p.body.value.access != ""
  }

  /** Which error a refresh that is due ends with. */
  lemma ErrorIff(e: Entry, force: bool, at: Time, skew: int, found: bool, p: Post)
    ensures var o := RefreshOutcome(e, force, at, skew, found, p);
            var posted := Posts(e, force, at, skew, found, p);
            && (o == Failed(NoRefreshToken) <==> !o.Skipped? && Blank(e.refreshToken))
            && (o == Failed(DiscoveryFailed) <==> !o.Skipped? && !Blank(e.refreshToken) && !found)
            && (o == Failed(RequestFailed) <==> !o.Skipped? && !Blank(e.refreshToken) && found && !posted)
            && (o == Failed(TransportFailed) <==> posted && p.NoReply?)
            && (forall code :: o == Failed(TokenStatus(code)) <==> posted && p.Reply? && p.status == code && !(200 <= code < 300))
            && (o == Failed(BadTokenBody) <==> posted && p.Reply? && 200 <= p.status < 300 && p.body.None?)
            && (o == Failed(NoAccessToken) <==> posted && p.Reply? && 200 <= p.status < 300 && p.body.Some? && p.body.value.access == "")
  {
  }

  /** The common token path below the issuer, whatever slashes the issuer ends with. */
  predicate IsFallback(issuer: string, url: string) {
    exists n | 0 <= n <= |issuer| :: IsFallbackAt(issuer, url, n)
  }

  predicate IsFallbackAt(issuer: string, url: string, n: nat) {
    && n <= |issuer| && url == issuer[..n] + "/oauth/token"
    && (n > 0 ==> issuer[n - 1] != '/') && forall i | n <= i < |issuer| :: issuer[i] == '/'
  }

  lemma {:induction false} TrimmedIsFallback(issuer: string)
    ensures IsFallback(issuer, TrimRightSlash(issuer) + "/oauth/token")
    decreases |issuer|
  {
    var url := TrimRightSlash(issuer) + "/oauth/token";
    if issuer != "" && issuer[|issuer| - 1] == '/' {
      var shorter := issuer[..|issuer| - 1];
      TrimmedIsFallback(shorter);
      var n :| 0 <= n <= |shorter| && IsFallbackAt(shorter, url, n);
      assert IsFallbackAt(issuer, url, n);
    } else {
      assert issuer[..|issuer|] == issuer;
      assert IsFallbackAt(issuer, url, |issuer|);
    }
  }

  /** The URL of the token request: the cached endpoint, the discovered one if it is not empty, the common path for
      every other answer, and none for an issuer that makes no URL. */
  lemma TokenURLIs(cached: string, issuer: string, d: Discovery)
    ensures var url := TokenURL(cached, issuer, d);
            && (url.None? <==> cached == "" && d.BadIssuer?)
            && (cached != "" ==> url == Some(cached))
            && (cached == "" && d.Endpoint? && d.url != "" ==> url == Some(d.url))
            && (cached == "" && !d.BadIssuer? && (d.Endpoint? ==> d.url == "") ==> IsFallback(issuer, url.value))
  {
    TrimmedIsFallback(issuer);
  }
}
