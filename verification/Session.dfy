/** The session cookie and the login state machine that runs on it: one chain of requests, each
    carrying the cookie that the response before it set. */
module Session {
  import opened Domain
  import Base64Url
  import Text

  // ---------------------------------------------------------------- text

  /** The code points that JavaScript's `trim` removes at either end. */
  predicate IsJsSpace(c: char) {
    (IsGoSpace(c) && c != '\U{85}') || c == '\U{FEFF}'
  }

  /** ECMAScript takes the byte order mark for space, and not the next line character. */
  lemma JsSpaceIsWhiteSpace(c: char)
    ensures IsJsSpace(c) <==> c == '\U{FEFF}' || (c in WhiteSpace && c != '\U{85}')
  {
    GoSpaceIsWhiteSpace(c);
  }

  /** `s.trim()`. */
  function Trim(s: string): (r: string)
    ensures r != "" ==> !IsJsSpace(r[0]) && !IsJsSpace(r[|r| - 1])
    ensures s != "" && !IsJsSpace(s[0]) && !IsJsSpace(s[|s| - 1]) ==> r == s
    ensures s != "" && !IsJsSpace(s[0]) ==> r != ""
  {
    Text.TrimFacts(s, IsJsSpace);
    Text.Trim(s, IsJsSpace)
  }

  /** toSessionNonEmptyString. */
  function NonEmpty(value: Option<string>): (r: Option<string>)
    ensures r.Some? ==> r.value != "" && Trim(r.value) == r.value
  {
    if value.Some? && Trim(value.value) != "" then Some(Trim(value.value)) else None
  }

  /** One slash in front, and no second. Where a browser goes with such a text is not said. */
  predicate OneSlashInFront(path: string) {
    "/" <= path && !("//" <= path)
  }

  /** sanitizeRedirectTo: a text with one slash in front is kept, anything else becomes the fallback. */
  function SanitizeRedirectTo(redirectTo: Option<string>, fallback: string): (r: string)
    ensures redirectTo.Some? && OneSlashInFront(redirectTo.value) ==> r == redirectTo.value
    ensures redirectTo.None? || !OneSlashInFront(redirectTo.value) ==> r == fallback
  {
    if redirectTo.None? || |redirectTo.value| == 0 then fallback
    else if redirectTo.value[0] != '/' || (|redirectTo.value| > 1 && redirectTo.value[1] == '/') then fallback
    else redirectTo.value
  }

  lemma KeptIffOneSlash(redirectTo: Option<string>)
    ensures SanitizeRedirectTo(redirectTo, "") != "" <==> redirectTo.Some? && OneSlashInFront(redirectTo.value)
  {
  }

  // ---------------------------------------------------------------- session data

  datatype Data = Data(
    userId: Option<string>,
    csrfToken: Option<string>,
    oidcState: Option<string>,
    oidcNonce: Option<string>,
    oidcCodeVerifier: Option<string>,
    oidcRedirectTo: Option<string>)

  const EmptySession := Data(None, None, None, None, None, None)

  datatype Pending = Pending(state: string, nonce: string, codeVerifier: string, redirectTo: string)

  function PendingIn(d: Data): Option<Pending> {
    var state, nonce := NonEmpty(d.oidcState), NonEmpty(d.oidcNonce);
    var codeVerifier, redirectTo := NonEmpty(d.oidcCodeVerifier), NonEmpty(d.oidcRedirectTo);
    if state.None? || nonce.None? || codeVerifier.None? || redirectTo.None? then None
    else Some(Pending(state.value, nonce.value, codeVerifier.value, redirectTo.value))
  }

  predicate NoPending(d: Data) {
    d.oidcState.None? && d.oidcNonce.None? && d.oidcCodeVerifier.None? && d.oidcRedirectTo.None?
  }

  function WithoutPending(d: Data): Data {
    d.(oidcState := None, oidcNonce := None, oidcCodeVerifier := None, oidcRedirectTo := None)
  }

  function WithPending(d: Data, p: Pending): Data {
    d.(oidcState := Some(p.state), oidcNonce := Some(p.nonce), oidcCodeVerifier := Some(p.codeVerifier),
        oidcRedirectTo := Some(p.redirectTo))
  }

  // ---------------------------------------------------------------- id token

  datatype Audience = One(text: string) | Many(texts: seq<string>) | NoAudience

  /** The decoded claims; `exp` is None when it is no number. */
  datatype Claims = Claims(sub: string, iss: string, aud: Audience, exp: Option<int>, nonce: Option<string>)

  predicate AudienceMatches(aud: Audience, clientId: string) {
    match aud
    case One(text) => text == clientId
    case Many(texts) => clientId in texts
    case NoAudience => false
  }

  /** validateIdTokenClaims accepts. */
  predicate ClaimsAccepted(c: Claims, clientId: string, issuer: string, nonce: string, nowSeconds: int) {
    && Trim(c.sub) != ""
    && c.iss == issuer
    && AudienceMatches(c.aud, clientId)
    && c.exp.Some? && c.exp.value > nowSeconds - 30
    && c.nonce == Some(nonce)
  }

  /** What discovery, the token exchange and the signature check give: a failure anywhere with the
      status of its error, or signed claims to validate. */
  datatype Exchange = Failed(status: int) | Signed(claims: Claims, clientId: string, issuer: string, nowSeconds: int)

  /** completeOidcAuthorization: the subject, or None where it throws. */
  function Subject(e: Exchange, p: Pending): Option<string> {
    if e.Signed? && ClaimsAccepted(e.claims, e.clientId, e.issuer, p.nonce, e.nowSeconds) then Some(e.claims.sub)
    else None
  }

  // ---------------------------------------------------------------- requests on the cookie

  /** The random bytes that a login draws. */
  datatype Randomness = Randomness(state: seq<Base64Url.Byte>, nonce: seq<Base64Url.Byte>,
      codeVerifier: seq<Base64Url.Byte>)

  datatype Event =
    | IssueCsrf(newToken: string)
    | VisitLogin(redirectTo: Option<string>, newToken: string, randomness: Randomness, discovered: bool)
    | Callback(error: Option<string>, code: Option<string>, state: Option<string>, exchange: Exchange)
    | PostLogout(postedToken: Option<string>, isLogout: bool)

  /** `randomBytes(32).toString("hex")` is a non-blank text, and a login draws bytes. */
  predicate Drawn(e: Event) {
    match e
    case IssueCsrf(token) => token != "" && Trim(token) == token
    case VisitLogin(_, token, r, _) => token != "" && Trim(token) == token && |r.state| == 32 && |r.nonce| == 32
        && |r.codeVerifier| == 48
    case _ => true
  }

  /** ensureSessionCsrfToken. */
  function WithCsrf(d: Data, newToken: string): Data {
    if NonEmpty(d.csrfToken).Some? then d else d.(csrfToken := Some(newToken))
  }

  function NewPending(redirectTo: Option<string>, r: Randomness): Pending {
    Pending(Base64Url.Encode(r.state), Base64Url.Encode(r.nonce), Base64Url.Encode(r.codeVerifier),
        SanitizeRedirectTo(redirectTo, "/me"))
  }

  /** The login page: a signed-in user gets a token, unless the answer is a plain redirect that
      sets no cookie; anybody else starts a login, if the provider could be asked. */
  function AfterVisitLogin(d: Data, redirectTo: Option<string>, newToken: string, r: Randomness, discovered: bool)
    : Data
  {
    if NonEmpty(d.userId).Some? then
      if SanitizeRedirectTo(redirectTo, "") != "" then d else WithCsrf(d, newToken)
    else if discovered then WithPending(d, NewPending(redirectTo, r))
    else d
  }

  /** The callback proves a login: its state is the pending one and the token verified against
      the pending nonce; the verified subject. */
  function LoginOf(d: Data, e: Event): Option<string>
    requires e.Callback?
  {
    var p := PendingIn(d);
    if e.error.Some? && e.error.value != "" then None
    else if e.code.None? || e.code.value == "" || e.state.None? || e.state.value == "" then None
    else if p.None? || e.state.value != p.value.state then None
    else Subject(e.exchange, p.value)
  }

  function AfterCallback(d: Data, e: Event): Data
    requires e.Callback?
  {
    var login := LoginOf(d, e);
    if login.Some? then WithoutPending(d).(userId := Some(Trim(login.value))) else WithoutPending(d)
  }

  /** verifyCsrfToken accepts. */
  predicate CsrfVerified(d: Data, posted: Option<string>) {
    NonEmpty(d.csrfToken).Some? && NonEmpty(posted) == NonEmpty(d.csrfToken)
  }

  predicate IsLogin(d: Data, e: Event) {
    e.Callback? && LoginOf(d, e).Some?
  }

  /** A visit that writes a pending login into the cookie. */
  predicate IsBegin(d: Data, e: Event) {
    e.VisitLogin? && NonEmpty(d.userId).None? && e.discovered
  }

  /** A logout that goes through: a forged or stale token is refused before the intent is read. */
  predicate IsLogout(d: Data, e: Event) {
    e.PostLogout? && CsrfVerified(d, e.postedToken) && e.isLogout
  }

  function After(d: Data, e: Event): Data {
    match e
    case IssueCsrf(token) => WithCsrf(d, token)
    case VisitLogin(redirectTo, token, r, discovered) => AfterVisitLogin(d, redirectTo, token, r, discovered)
    case Callback(_, _, _, _) => AfterCallback(d, e)
    case PostLogout(_, _) => if IsLogout(d, e) then EmptySession else d
  }

  function AfterAll(d: Data, events: seq<Event>): Data
    decreases |events|
  {
    if events == [] then d else AfterAll(After(d, events[0]), events[1..])
  }

  /** The session just before event `i`. */
  function Before(d: Data, events: seq<Event>, i: nat): Data
    requires i <= |events|
  {
    AfterAll(d, events[..i])
  }

  predicate AllDrawn(events: seq<Event>) {
    forall e | e in events :: Drawn(e)
  }

  // ---------------------------------------------------------------- what signs in

  /** All four pending texts are there, and the state is the pending one. */
  predicate NamesPending(d: Data, state: Option<string>) {
    && d.oidcState.Some? && Trim(d.oidcState.value) != "" && d.oidcNonce.Some? && Trim(d.oidcNonce.value) != ""
    && d.oidcCodeVerifier.Some? && Trim(d.oidcCodeVerifier.value) != ""
    && d.oidcRedirectTo.Some? && Trim(d.oidcRedirectTo.value) != ""
    && state == Some(Trim(d.oidcState.value))
  }

  /** A callback signs in exactly on this, field by field: no error, a code and a state, the state
      of the pending login, and signed claims with a subject, of the issuer, for this client, not
      expired for 30 seconds or more, with the pending nonce. */
  predicate SignsIn(d: Data, e: Event) {
    && e.Callback? && (e.error.None? || e.error.value == "")
    && e.code.Some? && e.code.value != "" && e.state.Some? && e.state.value != ""
    && NamesPending(d, e.state)
    && e.exchange.Signed?
    && var c := e.exchange.claims;
       && Trim(c.sub) != "" && c.iss == e.exchange.issuer
       && (c.aud == One(e.exchange.clientId) || (c.aud.Many? && e.exchange.clientId in c.aud.texts))
       && c.exp.Some? && e.exchange.nowSeconds < c.exp.value + 30
       && c.nonce == Some(Trim(d.oidcNonce.value))
  }

  /** And then the session is this one; the token is kept and nothing is pending either way. */
  lemma CallbackSignsInIff(d: Data, e: Event)
    requires e.Callback?
    ensures After(d, e) == Data(if SignsIn(d, e) then Some(Trim(e.exchange.claims.sub)) else d.userId, d.csrfToken,
                                None, None, None, None)
    ensures LoginOf(d, e) == if SignsIn(d, e) then Some(e.exchange.claims.sub) else None
  {
    hide Trim;
  }

  // ---------------------------------------------------------------- the handlers

  datatype Reply = Redirect(to: string) | ToProvider | Page(status: int)

  /** validateIdTokenClaims, check by check; the status of the error it throws. */
  method ValidateIdTokenClaims(c: Claims, clientId: string, issuer: string, nonce: string, nowSeconds: int)
    returns (error: Option<int>)
    ensures error.None? <==> ClaimsAccepted(c, clientId, issuer, nonce, nowSeconds)
    ensures error.Some? ==> error.value == 401
  {
    if c.sub == "" || Trim(c.sub) == "" {
      return Some(401);
    }
    if c.iss != issuer {
      return Some(401);
    }
    if !AudienceMatches(c.aud, clientId) {
      return Some(401);
    }
    if c.exp.None? || c.exp.value <= nowSeconds - 30 {
      return Some(401);
    }
    if c.nonce != Some(nonce) {
      return Some(401);
    }
    return None;
  }

  /** The cookie as the handlers change it, field by field. */
  class SessionCookie {
    var data: Data

    constructor ()
      ensures data == EmptySession
    {
      data := EmptySession;
    }

    method ClearPendingOidcAuth()
      modifies this
      ensures data == WithoutPending(old(data))
    {
      data := data.(oidcState := None);
      data := data.(oidcNonce := None);
      data := data.(oidcCodeVerifier := None);
      data := data.(oidcRedirectTo := None);
    }

    method CreatePendingOidcAuth(p: Pending)
      modifies this
      ensures data == WithPending(old(data), p)
    {
      data := data.(oidcState := Some(p.state));
      data := data.(oidcNonce := Some(p.nonce));
      data := data.(oidcCodeVerifier := Some(p.codeVerifier));
      data := data.(oidcRedirectTo := Some(p.redirectTo));
    }

    /** createUserSessionCookie; refuses a blank user id before it changes anything. */
    method CreateUserSession(userId: string) returns (ok: bool)
      modifies this
      ensures ok <==> Trim(userId) != ""
      ensures data == if ok then WithoutPending(old(data)).(userId := Some(Trim(userId))) else old(data)
    {
      var normalized := Trim(userId);
      if |normalized| == 0 {
        return false;
      }
      ClearPendingOidcAuth();
      data := data.(userId := Some(normalized));
      return true;
    }

    /** ensureSessionCsrfToken. */
    method EnsureCsrfToken(newToken: string) returns (token: string)
      modifies this
      ensures data == After(old(data), IssueCsrf(newToken))
      ensures newToken != "" && Trim(newToken) == newToken ==> NonEmpty(data.csrfToken) == Some(token)
    {
      var existing := NonEmpty(data.csrfToken);
      if existing.Some? {
        return existing.value;
      }
      data := data.(csrfToken := Some(newToken));
      return newToken;
    }

    /** The login loader, branch by branch. The answer to a signed-in user that redirects sets no
        cookie, so a token drawn for it is lost. `failure` is the status of the page where the
        provider could not be asked. */
    method HandleLogin(redirectTo: Option<string>, newToken: string, r: Randomness, discovered: bool, failure: int)
      returns (reply: Reply)
      modifies this
      ensures data == After(old(data), VisitLogin(redirectTo, newToken, r, discovered))
      ensures NonEmpty(old(data).userId).Some? && redirectTo.Some? && OneSlashInFront(redirectTo.value) ==>
                reply == Redirect(redirectTo.value) && data == old(data)
      ensures NonEmpty(old(data).userId).Some? && (redirectTo.None? || !OneSlashInFront(redirectTo.value)) ==>
                && reply == Page(200)
                && (newToken != "" && Trim(newToken) == newToken ==> NonEmpty(data.csrfToken).Some?)
      ensures NonEmpty(old(data).userId).None? && !discovered ==> reply == Page(failure) && data == old(data)
      ensures reply.ToProvider? ==> data == old(data).(
                oidcState := Some(Base64Url.Encode(r.state)), oidcNonce := Some(Base64Url.Encode(r.nonce)),
                oidcCodeVerifier := Some(Base64Url.Encode(r.codeVerifier)),
                oidcRedirectTo := Some(SanitizeRedirectTo(redirectTo, "/me")))
      ensures reply == ToProvider <==> IsBegin(old(data), VisitLogin(redirectTo, newToken, r, discovered))
    {
      hide Base64Url.Encode, NonEmpty, SanitizeRedirectTo, OneSlashInFront, Trim, WithCsrf;
      KeptIffOneSlash(redirectTo);
      var target := SanitizeRedirectTo(redirectTo, "/me");
      if NonEmpty(data.userId).Some? {
        var requested := SanitizeRedirectTo(redirectTo, "");
        if requested != "" {
          return Redirect(requested);
        }
        var _ := EnsureCsrfToken(newToken);
        return Page(200);
      }
      if !discovered {
        return Page(failure);
      }
      var state, nonce := Base64Url.Encode(r.state), Base64Url.Encode(r.nonce);
      CreatePendingOidcAuth(Pending(state, nonce, Base64Url.Encode(r.codeVerifier), target));
      return ToProvider;
    }

    /** The login action: the posted token is verified before anything else. */
    method HandleLogout(postedToken: Option<string>, isLogout: bool) returns (reply: Reply)
      modifies this
      ensures data == After(old(data), PostLogout(postedToken, isLogout))
      ensures reply == Redirect("/") <==> IsLogout(old(data), PostLogout(postedToken, isLogout))
      ensures reply == Page(403) <==> !CsrfVerified(old(data), postedToken)
      ensures CsrfVerified(old(data), postedToken) && !isLogout ==> reply == Page(400)
    {
      var own, posted := NonEmpty(data.csrfToken), NonEmpty(postedToken);
      if own.None? || posted.None? || own.value != posted.value {
        return Page(403);
      }
      if !isLogout {
        return Page(400);
      }
      data := EmptySession;
      return Redirect("/");
    }

    /** The callback loader, branch by branch. */
    method HandleCallback(error: Option<string>, code: Option<string>, state: Option<string>, exchange: Exchange)
        returns (reply: Reply)
      modifies this
      ensures data == After(old(data), Callback(error, code, state, exchange))
      ensures reply.Redirect? <==> SignsIn(old(data), Callback(error, code, state, exchange))
      ensures reply.Redirect? ==>
                && old(data).oidcRedirectTo.Some?
                && reply.to == SanitizeRedirectTo(Some(Trim(old(data).oidcRedirectTo.value)), "/me")
      ensures error.Some? && error.value != "" ==> reply == Page(401)
      ensures (error.None? || error.value == "") &&
              (code.None? || code.value == "" || state.None? || state.value == "") ==>
                reply == Page(400)
      ensures (error.None? || error.value == "") &&
              code.Some? && code.value != "" && state.Some? && state.value != "" && reply.Page? ==>
                reply.status == if NamesPending(old(data), state) && exchange.Failed? then exchange.status else 401
      ensures !reply.ToProvider?
    {
      CallbackSignsInIff(data, Callback(error, code, state, exchange));
      hide Trim, SanitizeRedirectTo, SignsIn, ClaimsAccepted;
      var pending := PendingIn(data);
      var retry := SanitizeRedirectTo(if pending.Some? then Some(pending.value.redirectTo) else None, "/me");
      if error.Some? && error.value != "" {
        ClearPendingOidcAuth();
        return Page(401);
      }
      if code.None? || code.value == "" || state.None? || state.value == "" {
        ClearPendingOidcAuth();
        return Page(400);
      }
      if pending.None? {
        ClearPendingOidcAuth();
        return Page(401);
      }
      if state.value != pending.value.state {
        ClearPendingOidcAuth();
        return Page(401);
      }
      if exchange.Failed? {
        ClearPendingOidcAuth();
        return Page(exchange.status);
      }
      var invalid := ValidateIdTokenClaims(exchange.claims, exchange.clientId, exchange.issuer, pending.value.nonce,
                                           exchange.nowSeconds);
      if invalid.Some? {
        ClearPendingOidcAuth();
        return Page(invalid.value);
      }
      var created := CreateUserSession(exchange.claims.sub);
      assert created;
      return Redirect(retry);
    }
  }

  // ---------------------------------------------------------------- guarantees

  /** The pending fields are all there and readable, or all absent; a user id, once there, is a
      trimmed non-blank text, and so is a token. */
  predicate Coherent(d: Data) {
    && (NoPending(d) || PendingIn(d).Some?)
    && NonEmpty(d.userId) == d.userId
    && NonEmpty(d.csrfToken) == d.csrfToken
  }

  /** An encoded random value is non-empty and survives trimming. */
  lemma RandomTextIsTrimmed(bytes: seq<Base64Url.Byte>)
    requires bytes != []
    ensures Base64Url.Encode(bytes) != "" && NonEmpty(Some(Base64Url.Encode(bytes))) == Some(Base64Url.Encode(bytes))
  {
    Base64Url.EncodingShape(bytes);
    hide Base64Url.Encode;
    var text := Base64Url.Encode(bytes);
    assert Base64Url.IsUrlSymbol(text[0]) && Base64Url.IsUrlSymbol(text[|text| - 1]);
  }

  /** A login that was just started reads back with the state, nonce and verifier it drew, and
      with its redirect path trimmed. */
  lemma PendingReadsBack(d: Data, redirectTo: Option<string>, r: Randomness)
    requires r.state != [] && r.nonce != [] && r.codeVerifier != []
    ensures var p := NewPending(redirectTo, r);
            PendingIn(WithPending(d, p)) == Some(p.(redirectTo := Trim(p.redirectTo)))
    ensures NewPending(redirectTo, r)
         == Pending(Base64Url.Encode(r.state), Base64Url.Encode(r.nonce), Base64Url.Encode(r.codeVerifier),
                    SanitizeRedirectTo(redirectTo, "/me"))
  {
    RandomTextIsTrimmed(r.state);
    RandomTextIsTrimmed(r.nonce);
    RandomTextIsTrimmed(r.codeVerifier);
    hide Base64Url.Encode;
  }

  /** What is pending depends on the pending fields alone. */
  lemma PendingFrame(d: Data, e: Data)
    requires WithoutPending(d).(userId := e.userId, csrfToken := e.csrfToken) == WithoutPending(e)
    requires d.oidcState == e.oidcState && d.oidcNonce == e.oidcNonce && d.oidcCodeVerifier == e.oidcCodeVerifier
             && d.oidcRedirectTo == e.oidcRedirectTo
    ensures PendingIn(d) == PendingIn(e)
  {
  }

  lemma LoginIsCoherent(d: Data, redirectTo: Option<string>, newToken: string, r: Randomness, discovered: bool)
    requires Coherent(d) && Drawn(VisitLogin(redirectTo, newToken, r, discovered))
    ensures Coherent(AfterVisitLogin(d, redirectTo, newToken, r, discovered))
  {
    hide Base64Url.Encode, SanitizeRedirectTo, PendingIn, NewPending;
    if NonEmpty(d.userId).None? && discovered {
      PendingReadsBack(d, redirectTo, r);
      hide NonEmpty;
    } else if NonEmpty(d.userId).Some? {
      PendingFrame(d, WithCsrf(d, newToken));
    }
  }

  lemma CallbackIsCoherent(d: Data, e: Event)
    requires Coherent(d) && e.Callback?
    ensures Coherent(AfterCallback(d, e)) && NoPending(AfterCallback(d, e))
  {
    hide PendingIn, SanitizeRedirectTo, IsJsSpace;
    assert NoPending(WithoutPending(d));
  }

  lemma StepIsCoherent(d: Data, e: Event)
    requires Coherent(d) && Drawn(e)
    ensures Coherent(After(d, e))
  {
    match e
    case IssueCsrf(token) =>
      hide PendingIn;
      PendingFrame(d, WithCsrf(d, token));
    case VisitLogin(redirectTo, token, r, discovered) =>
      hide Coherent, Drawn;
      LoginIsCoherent(d, redirectTo, token, r, discovered);
    case Callback(_, _, _, _) =>
      hide Coherent;
      CallbackIsCoherent(d, e);
    case PostLogout(_, _) =>
  }

  /** In every run of one cookie the four pending fields are all present or all absent. */
  lemma {:induction false} RunIsCoherent(d: Data, events: seq<Event>)
    requires Coherent(d) && AllDrawn(events)
    ensures Coherent(AfterAll(d, events))
    decreases |events|
  {
    hide Coherent, After, Drawn;
    if events != [] {
      assert Drawn(events[0]);
      StepIsCoherent(d, events[0]);
      RunIsCoherent(After(d, events[0]), events[1..]);
    }
  }

  predicate ClosesSession(d: Data, e: Event) {
    && IsLogout(d, e) && d.csrfToken.Some? && NonEmpty(e.postedToken) == d.csrfToken && After(d, e) == EmptySession
  }

  predicate AnswersPending(d: Data, e: Event) {
    && e.Callback? && PendingIn(d).Some? && e.state == Some(PendingIn(d).value.state)
    && e.exchange.Signed? && e.exchange.claims.nonce == Some(PendingIn(d).value.nonce)
    && After(d, e).userId == Some(Trim(e.exchange.claims.sub))
  }

  /** Every outcome of the callback consumes the pending login. The user id changes only in a
      callback whose state is the pending one and whose signed claims carry the pending nonce, to
      the trimmed subject, or in a logout that posts the session's own token; the token changes
      only from none to issued or in such a logout. */
  lemma OneStep(d: Data, e: Event)
    requires Coherent(d)
    ensures e.Callback? ==> NoPending(After(d, e))
    ensures After(d, e).userId != d.userId ==> ClosesSession(d, e) || AnswersPending(d, e)
    ensures After(d, e).csrfToken != d.csrfToken ==> d.csrfToken.None? || ClosesSession(d, e)
  {
    hide Base64Url.Encode;
  }

  /** Whoever is not signed in and starts a login that the provider answers with signed, valid
      claims for the nonce and state drawn there is signed in as the claims' trimmed subject. */
  lemma LoginCompletes(d: Data, begin: Event, e: Event)
    requires begin.VisitLogin? && begin.discovered && NonEmpty(d.userId).None? && Drawn(begin)
    requires e.Callback? && (e.error.None? || e.error.value == "") && e.code.Some? && e.code.value != ""
    requires e.state == Some(Base64Url.Encode(begin.randomness.state))
    requires e.exchange.Signed?
    requires var c := e.exchange.claims;
             && Trim(c.sub) != "" && c.iss == e.exchange.issuer
             && (c.aud == One(e.exchange.clientId) || (c.aud.Many? && e.exchange.clientId in c.aud.texts))
             && c.exp.Some? && e.exchange.nowSeconds < c.exp.value + 30
             && c.nonce == Some(Base64Url.Encode(begin.randomness.nonce))
    ensures After(After(d, begin), e) == WithoutPending(d).(userId := Some(Trim(e.exchange.claims.sub)))
  {
    PendingReadsBack(d, begin.redirectTo, begin.randomness);
    RandomTextIsTrimmed(begin.randomness.state);
    hide Base64Url.Encode, SanitizeRedirectTo, NonEmpty, PendingIn, Trim;
    var p := NewPending(begin.redirectTo, begin.randomness);
    assert PendingIn(WithPending(d, p)) == Some(p.(redirectTo := Trim(p.redirectTo)));
  }

  /** A callback that carries another state than the pending one, or claims with another nonce. */
  lemma OtherPendingIsRefused(d: Data, e: Event)
    requires e.Callback? && PendingIn(d).Some?
    requires e.state != Some(PendingIn(d).value.state)
             || (e.exchange.Signed? ==> e.exchange.claims.nonce != Some(PendingIn(d).value.nonce))
    ensures AfterCallback(d, e).userId == d.userId
  {
    hide PendingIn, Trim;
  }

  /** The answer to another login is refused: when the state bytes or the nonce bytes drawn there
      differ from the ones of the login begun last, the user id stays as it was. */
  lemma OtherLoginIsRefused(d: Data, begin: Event, e: Event, state: seq<Base64Url.Byte>, nonce: seq<Base64Url.Byte>)
    requires begin.VisitLogin? && begin.discovered && NonEmpty(d.userId).None? && Drawn(begin)
    requires e.Callback? && e.state == Some(Base64Url.Encode(state))
    requires e.exchange.Signed? ==> e.exchange.claims.nonce == Some(Base64Url.Encode(nonce))
    requires state != begin.randomness.state || nonce != begin.randomness.nonce
    ensures After(After(d, begin), e).userId == d.userId
  {
    if Base64Url.Encode(state) == Base64Url.Encode(begin.randomness.state)
        && Base64Url.Encode(nonce) == Base64Url.Encode(begin.randomness.nonce) {
      Base64Url.EncodeIsInjective(state, begin.randomness.state);
      Base64Url.EncodeIsInjective(nonce, begin.randomness.nonce);
    }
    hide Base64Url.Encode, SanitizeRedirectTo, PendingIn, Trim, AfterCallback;
    PendingReadsBack(d, begin.redirectTo, begin.randomness);
    OtherPendingIsRefused(WithPending(d, NewPending(begin.redirectTo, begin.randomness)), e);
  }

  function Logins(d: Data, events: seq<Event>): nat
    decreases |events|
  {
    if events == [] then 0 else (if IsLogin(d, events[0]) then 1 else 0) + Logins(After(d, events[0]), events[1..])
  }

  function Begins(d: Data, events: seq<Event>): nat
    decreases |events|
  {
    if events == [] then 0 else (if IsBegin(d, events[0]) then 1 else 0) + Begins(After(d, events[0]), events[1..])
  }

  lemma StepConsumes(d: Data, e: Event)
    ensures IsLogin(d, e) ==> !NoPending(d) && NoPending(After(d, e))
    ensures NoPending(d) && !IsBegin(d, e) ==> NoPending(After(d, e))
  {
    hide Base64Url.Encode;
  }

  /** A pending login is consumed at most once: in any run there are at most as many completed
      logins as logins begun, counting one that was pending at the start. */
  lemma {:induction false} LoginsNeedBegins(d: Data, events: seq<Event>)
    ensures Logins(d, events) + (if NoPending(AfterAll(d, events)) then 0 else 1)
         <= Begins(d, events) + (if NoPending(d) then 0 else 1)
    decreases |events|
  {
    hide After, IsLogin, IsBegin, NoPending;
    if events != [] {
      StepConsumes(d, events[0]);
      LoginsNeedBegins(After(d, events[0]), events[1..]);
    }
  }

  /** No logout of the run goes through. */
  predicate StaysOpen(d: Data, events: seq<Event>) {
    forall i | 0 <= i < |events| :: !IsLogout(Before(d, events, i), events[i])
  }

  lemma StaysOpenAfter(d: Data, events: seq<Event>)
    requires events != [] && StaysOpen(d, events)
    ensures !IsLogout(d, events[0]) && StaysOpen(After(d, events[0]), events[1..])
  {
    hide After, IsLogout;
    assert Before(d, events, 0) == d;
    forall i | 0 <= i < |events[1..]| ensures !IsLogout(Before(After(d, events[0]), events[1..], i), events[1..][i]) {
      assert events[..i + 1][0] == events[0] && events[..i + 1][1..] == events[1..][..i];
      assert Before(d, events, i + 1) == Before(After(d, events[0]), events[1..], i);
    }
  }

  lemma TokenKept(d: Data, e: Event)
    requires Coherent(d) && d.csrfToken.Some? && !IsLogout(d, e)
    ensures After(d, e).csrfToken == d.csrfToken
  {
    hide Base64Url.Encode, PendingIn, SanitizeRedirectTo, Subject;
  }

  /** From its issue to the end of the session the token is constant: in a run without a logout
      that goes through it is never replaced, whatever posts were refused on the way. */
  lemma {:induction false} TokenIsConstant(d: Data, events: seq<Event>)
    requires Coherent(d) && d.csrfToken.Some? && AllDrawn(events) && StaysOpen(d, events)
    ensures AfterAll(d, events).csrfToken == d.csrfToken
    decreases |events|
  {
    if events != [] {
      StaysOpenAfter(d, events);
      assert Drawn(events[0]);
      hide After, Coherent, Drawn, StaysOpen, IsLogout;
      TokenKept(d, events[0]);
      StepIsCoherent(d, events[0]);
      TokenIsConstant(After(d, events[0]), events[1..]);
    }
  }

  // ---------------------------------------------------------------- where a signed-in user comes from

  /** Event `i` is the login that the user id at the end of the run stems from. */
  predicate SignedInBy(d: Data, events: seq<Event>, i: nat) {
    && i < |events| && IsLogin(Before(d, events, i), events[i])
    && AfterAll(d, events).userId == Some(Trim(LoginOf(Before(d, events, i), events[i]).value))
  }

  /** Event `k` drew what is pending at the end of the run. */
  predicate BegunBy(d: Data, events: seq<Event>, k: nat) {
    && k < |events| && IsBegin(Before(d, events, k), events[k])
    && var p := NewPending(events[k].redirectTo, events[k].randomness);
       PendingIn(AfterAll(d, events)) == Some(p.(redirectTo := Trim(p.redirectTo)))
  }

  lemma {:induction false} LastStep(d: Data, events: seq<Event>)
    requires events != []
    ensures AfterAll(d, events) == After(Before(d, events, |events| - 1), events[|events| - 1])
    decreases |events|
  {
    hide After;
    var n := |events| - 1;
    if n > 0 {
      LastStep(After(d, events[0]), events[1..]);
      assert events[1..][..n - 1] == events[..n][1..];
    }
  }

  lemma UserIdStep(d: Data, e: Event)
    ensures After(d, e).userId.Some? ==>
              || After(d, e).userId == d.userId
              || (IsLogin(d, e) && After(d, e).userId == Some(Trim(LoginOf(d, e).value)))
  {
    hide Base64Url.Encode, PendingIn, SanitizeRedirectTo, Subject, Trim;
  }

  lemma PendingStep(d: Data, e: Event)
    requires Drawn(e) && PendingIn(After(d, e)).Some?
    ensures IsBegin(d, e) || PendingIn(After(d, e)) == PendingIn(d)
    ensures IsBegin(d, e) ==> var p := NewPending(e.redirectTo, e.randomness);
                              PendingIn(After(d, e)) == Some(p.(redirectTo := Trim(p.redirectTo)))
  {
    hide Base64Url.Encode, SanitizeRedirectTo, Subject, Trim, NewPending;
    if e.VisitLogin? {
      PendingReadsBack(d, e.redirectTo, e.randomness);
    }
  }

  lemma {:induction false} UserIdComesFromALogin(d: Data, events: seq<Event>) returns (i: nat)
    requires d.userId.None? && AfterAll(d, events).userId.Some?
    ensures SignedInBy(d, events, i)
    decreases |events|
  {
    hide After, LoginOf, Trim;
    var n := |events| - 1;
    assert events != [];
    LastStep(d, events);
    UserIdStep(Before(d, events, n), events[n]);
    if IsLogin(Before(d, events, n), events[n])
        && AfterAll(d, events).userId == Some(Trim(LoginOf(Before(d, events, n), events[n]).value)) {
      i := n;
    } else {
      i := UserIdComesFromALogin(d, events[..n]);
      assert events[..n][..i] == events[..i];
    }
  }

  lemma {:induction false} PendingComesFromABegin(d: Data, events: seq<Event>) returns (k: nat)
    requires PendingIn(d).None? && AllDrawn(events) && PendingIn(AfterAll(d, events)).Some?
    ensures BegunBy(d, events, k)
    decreases |events|
  {
    hide After, IsBegin, Trim, PendingIn, NewPending, Drawn;
    var n := |events| - 1;
    assert events != [];
    LastStep(d, events);
    assert Drawn(events[n]);
    PendingStep(Before(d, events, n), events[n]);
    if IsBegin(Before(d, events, n), events[n]) {
      k := n;
    } else {
      k := PendingComesFromABegin(d, events[..n]);
      assert events[..n][..k] == events[..k];
    }
  }

  lemma EmptyHasNoPending()
    ensures PendingIn(EmptySession).None?
  {
  }

  lemma LoginIsPending(d: Data, e: Event)
    requires IsLogin(d, e)
    ensures PendingIn(d).Some? && e.state == Some(PendingIn(d).value.state)
    ensures e.exchange.Signed? && e.exchange.claims.nonce == Some(PendingIn(d).value.nonce)
  {
    hide PendingIn, Trim;
  }

  /** Whoever is signed in got there by a callback of this run, which answered a login begun
      earlier in it: the state is the one drawn there, and the signed claims carry the nonce drawn
      there. */
  lemma SignedInThroughOwnLogin(events: seq<Event>) returns (k: nat, i: nat)
    requires AllDrawn(events) && AfterAll(EmptySession, events).userId.Some?
    ensures k < i && SignedInBy(EmptySession, events, i) && BegunBy(EmptySession, events[..i], k)
    ensures events[i].state == Some(Base64Url.Encode(events[k].randomness.state))
    ensures events[i].exchange.claims.nonce == Some(Base64Url.Encode(events[k].randomness.nonce))
    ensures var x := events[i].exchange; var c := x.claims;
            && AfterAll(EmptySession, events).userId == Some(Trim(c.sub)) && Trim(c.sub) != "" && c.iss == x.issuer
            && (c.aud == One(x.clientId) || (c.aud.Many? && x.clientId in c.aud.texts))
            && c.exp.Some? && x.nowSeconds < c.exp.value + 30
  {
    hide After, Trim, PendingIn, Base64Url.Encode, Drawn, SanitizeRedirectTo;
    i := UserIdComesFromALogin(EmptySession, events);
    CallbackSignsInIff(Before(EmptySession, events, i), events[i]);
    LoginIsPending(Before(EmptySession, events, i), events[i]);
    assert PendingIn(EmptySession).None? by { EmptyHasNoPending(); }
    k := PendingComesFromABegin(EmptySession, events[..i]);
    assert events[..i][k] == events[k];
  }
}
