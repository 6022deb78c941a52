/**
 * Session tokens as abstract signed records. Signing with the access secret
 * or the refresh secret is the token's `kind`: a token verifies against a
 * secret exactly when it was signed with it. Times inside a token are whole
 * seconds, as the token library keeps them (`iat` is the clock in seconds,
 * rounded down; `exp` is `iat` plus the lifetime); the server clock `now` is
 * in milliseconds.
 */
module Tokens {
  import opened Wrappers

  datatype TokenKind = Access | Refresh

  /** A signed token: the sole claim is the account id. */
  datatype Token = Token(userId: nat, kind: TokenKind, issuedAt: nat, expiresAt: nat)

  datatype TokenPair = TokenPair(accessToken: Token, refreshToken: Token)

  /**
   * What a request can present where a token is expected: a non-empty string
   * that is no token signed by this server, or a signed token. An absent or
   * empty cookie is falsy and is modelled as no cookie at all (`None`).
   */
  datatype Presented = Garbage | Signed(token: Token)

  datatype TokenError =
    | NoRefreshToken   // no cookie, or an empty one: 401
    | TokenRejected    // bad signature, malformed or expired: thrown, reported as 500

  /** Lifetime in seconds: 15 minutes for access tokens, 7 days for refresh tokens. */
  function Lifetime(kind: TokenKind): nat {
    match kind
    case Access => 15 * 60
    case Refresh => 7 * 24 * 60 * 60
  }

  /** Sign a token for `userId` at clock `now` (milliseconds). */
  function Sign(userId: nat, kind: TokenKind, now: nat): (t: Token)
    ensures t.userId == userId && t.kind == kind
    ensures t.issuedAt * 1000 <= now < t.issuedAt * 1000 + 1000
    ensures t.expiresAt == t.issuedAt + Lifetime(kind)
  {
    Token(userId, kind, now / 1000, now / 1000 + Lifetime(kind))
  }

  /** `generateTokens`: an access token and a refresh token, both carrying exactly `userId`. */
  function GenerateTokens(userId: nat, now: nat): (p: TokenPair)
    ensures p.accessToken.userId == userId && p.refreshToken.userId == userId
    ensures p.accessToken.kind == Access && p.refreshToken.kind == Refresh
    ensures p.accessToken.issuedAt == p.refreshToken.issuedAt
    ensures p.accessToken.expiresAt == p.accessToken.issuedAt + 900
    ensures p.refreshToken.expiresAt == p.refreshToken.issuedAt + 604800
  {
    TokenPair(Sign(userId, Access, now), Sign(userId, Refresh, now))
  }

  /** Verification against the secret of `kind`: right signature and the clock (in seconds) before `exp`. */
  predicate Accepts(kind: TokenKind, t: Token, now: nat) {
    t.kind == kind && now / 1000 < t.expiresAt
  }

  function Verify(kind: TokenKind, p: Presented, now: nat): (r: Result<nat, TokenError>)
    ensures r.Ok? <==> p.Signed? && Accepts(kind, p.token, now)
    ensures r.Ok? ==> r.value == p.token.userId
    ensures r.Err? ==> r.error == TokenRejected
  {
    match p
    case Garbage => Err(TokenRejected)
    case Signed(t) => if Accepts(kind, t, now) then Ok(t.userId) else Err(TokenRejected)
  }

  /**
   * `refreshToken`: no cookie (or an empty one, `None`) is an error of its own; otherwise the cookie must
   * verify against the refresh secret, and then only a new access token is
   * minted, carrying the decoded account id. The refresh token is not rotated.
   */
  function RefreshAccess(cookie: Option<Presented>, now: nat): (r: Result<Token, TokenError>)
    ensures cookie.None? ==> r == Err(NoRefreshToken)
    ensures cookie.Some? ==> (r.Ok? <==> cookie.value.Signed? && Accepts(Refresh, cookie.value.token, now))
    ensures r.Ok? ==> r.value.kind == Access && r.value.userId == cookie.value.token.userId
    ensures r.Ok? ==> Accepts(Access, r.value, now)
  {
    match cookie
    case None => Err(NoRefreshToken)
    case Some(p) =>
      match Verify(Refresh, p, now)
      case Err(e) => Err(e)
      case Ok(userId) => Ok(Sign(userId, Access, now))
  }

  /**
   * A token signed at `t` is accepted `d` milliseconds later exactly when the
   * sub-second part of `t` plus `d` stays below the lifetime; so it is always
   * accepted one second before the lifetime ends and never once it has ended.
   */
  lemma {:induction false} TokenLifetime(userId: nat, kind: TokenKind, t: nat, d: nat)
    ensures Accepts(kind, Sign(userId, kind, t), t + d) <==> t % 1000 + d < Lifetime(kind) * 1000
    ensures d + 1000 <= Lifetime(kind) * 1000 ==> Accepts(kind, Sign(userId, kind, t), t + d)
    ensures d >= Lifetime(kind) * 1000 ==> !Accepts(kind, Sign(userId, kind, t), t + d)
  {
    var L := Lifetime(kind);
    assert t == (t / 1000) * 1000 + t % 1000;
    assert (t + d) / 1000 < t / 1000 + L <==> t % 1000 + d < L * 1000 by {
      DivBelow(t + d, t / 1000 + L);
    }
  }

  /** `n / 1000 < k` exactly when `n < k * 1000`. */
  lemma DivBelow(n: nat, k: nat)
    ensures n / 1000 < k <==> n < k * 1000
  {
    if n / 1000 < k {
      assert n < (n / 1000 + 1) * 1000;
      assert (n / 1000 + 1) * 1000 <= k * 1000;
    } else {
      assert n >= (n / 1000) * 1000 >= k * 1000;
    }
  }

  /** A token signed with one secret never verifies against the other. */
  lemma SecretsSeparate(userId: nat, now: nat, later: nat)
    ensures !Accepts(Refresh, GenerateTokens(userId, now).accessToken, later)
    ensures !Accepts(Access, GenerateTokens(userId, now).refreshToken, later)
    ensures RefreshAccess(Some(Signed(GenerateTokens(userId, now).accessToken)), later) == Err(TokenRejected)
  {
  }

  /**
   * Without rotation, one refresh token keeps minting access tokens for the
   * same account at every instant of its seven days.
   */
  lemma RefreshReusable(userId: nat, now: nat, d: nat)
    requires d + 1000 <= Lifetime(Refresh) * 1000
    ensures var r := RefreshAccess(Some(Signed(GenerateTokens(userId, now).refreshToken)), now + d);
      r.Ok? && r.value.userId == userId && r.value.kind == Access
  {
    TokenLifetime(userId, Refresh, now, d);
  }
}
