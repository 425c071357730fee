/** Unlock tokens as abstract claims: scoped, expiring and impossible to forge
    (internal/postmortem/unlock.go). */
module UnlockTokens {
  import opened Wrappers
  import opened Clock

  const TTL := 15 * MINUTE

  datatype Scope = UnlockScope | OtherScope

  /** The claims of a token. Session and share tokens are signed with the same secret, in another
      scope and possibly without an expiry. */
  datatype Claims = Claims(sev: string, scope: Scope, expires: Option<Time>)

  /** What a request can carry: nothing, or some token. */
  datatype Token = NoToken | Token(claims: Claims)

  /** Numeric dates keep whole seconds, rounded down. */
  function NumericDate(t: Time): (d: Time)
    ensures t - SECOND < d <= t
  {
    t - t % SECOND
  }

  function Sign(sev: string, now: Time): Claims {
    Claims(sev, UnlockScope, Some(NumericDate(now + TTL)))
  }

  /** Validate, with the signature check standing for "the server signed these claims": the
      signature first, then the expiry (section 4.1.4 of RFC 7519), the scope and the SEV. */
  function Validate(claims: Claims, sev: string, signed: set<Claims>, now: Time): (r: Result<()>)
    ensures r.Ok? <==> claims in signed && claims.scope.UnlockScope? && claims.sev == sev
                       && (claims.expires.Some? ==> now < claims.expires.value)
  {
    if claims !in signed then Err(TokenInvalid)
    else if claims.expires.Some? && !(now < claims.expires.value) then Err(TokenExpired)
    else if !claims.scope.UnlockScope? then Err(TokenInvalid)
    else if claims.sev != sev then Err(TokenWrongSev)
    else Ok(())
  }

  /** validateUnlock: a locked SEV without a token is refused before the token is looked at. */
  function ValidateUnlock(token: Token, sev: string, signed: set<Claims>, now: Time): Result<()> {
    if token.NoToken? then Err(LockedNoToken) else Validate(token.claims, sev, signed, now)
  }

  /** A token opens the SEV it was signed for, from the moment it is signed until less than fifteen
      minutes later, and no other SEV at any time. */
  lemma SignedTokenOpensItsSev(sev: string, other: string, signed: set<Claims>, issued: Time, now: Time)
    requires Sign(sev, issued) in signed
    ensures ValidateUnlock(Token(Sign(sev, issued)), other, signed, now).Ok? ==> other == sev && now < issued + TTL
    ensures now <= issued + TTL - SECOND ==> ValidateUnlock(Token(Sign(sev, issued)), sev, signed, now).Ok?
  {
  }
}
