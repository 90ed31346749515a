/** The bearer-token gate that runs before every private route. Its mode is
    fixed once, when the module is loaded, from two environment variables;
    per request it extracts the token from the `Authorization` header and
    either lets the request through, with the decoded identity attached, or
    answers 401. The identity provider's `verifyIdToken` is an oracle
    `verify` that yields the decoded identity or nothing (a rejected or
    thrown verification). */
module Auth {
  import opened Wrappers
  import opened Domain

  /** The mode chosen at load time. `providerReady` says whether the
      identity provider's application was initialised. */
  datatype Gate = Gate(enabled: bool, providerReady: bool)

  /** Load-time configuration from FIREBASE_DISABLE_AUTH and
      FIREBASE_PROJECT_ID (absent variables are `None`). */
  function LoadGate(disableAuth: Option<string>, projectId: Option<string>): (g: Gate)
    ensures !g.enabled <==> disableAuth == Some("true")
    ensures g.providerReady <==> g.enabled && projectId.Some? && projectId.value != ""
  {
    var enabled := disableAuth != Some("true");
    Gate(enabled, enabled && projectId.Some? && projectId.value != "")
  }

  const BearerPrefix: string := "Bearer "

  const MissingToken: string := "Missing token"
  const InvalidToken: string := "Invalid token"

  /** The token of an `Authorization` header (`""` when the header is
      absent): what follows `Bearer `, provided that is not empty. */
  function BearerToken(header: string): (t: Option<string>)
    ensures t.Some? <==> |header| > |BearerPrefix| && header[..|BearerPrefix|] == BearerPrefix
    ensures t.Some? ==> BearerPrefix + t.value == header
  {
    if |header| > |BearerPrefix| && header[..|BearerPrefix|] == BearerPrefix
    then Some(header[|BearerPrefix|..])
    else None
  }

  /** Either the request goes on to its handler with `req.user` set to
      `user`, or the gate answers 401 with `message`. */
  datatype Decision = Admit(user: Option<Identity>) | Reject(message: string)

  /** `verifyFirebaseToken(req, res, next)`. */
  function Authenticate(g: Gate, header: string, verify: string -> Option<Identity>): (d: Decision)
    // Bypass admits every request, with no identity attached.
    ensures !g.enabled ==> d == Admit(None)
    // When enforcing, only a verified token gets through, carrying its identity.
    ensures g.enabled && d.Admit? ==>
      BearerToken(header).Some? && g.providerReady && d.user.Some? && d.user == verify(BearerToken(header).value)
    // No usable bearer token: 401 "Missing token".
    ensures g.enabled && BearerToken(header).None? ==> d == Reject(MissingToken)
    // A token the verifier refuses: 401 "Invalid token".
    ensures g.enabled && BearerToken(header).Some? && verify(BearerToken(header).value).None? ==> d == Reject(InvalidToken)
    // A token the ready provider verifies is let through with its identity.
    ensures g.enabled && g.providerReady && BearerToken(header).Some? && verify(BearerToken(header).value).Some? ==>
      d == Admit(verify(BearerToken(header).value))
    // Fails closed: with no provider, reaching it throws and any token is
    // answered 401 "Invalid token".
    ensures g.enabled && !g.providerReady && BearerToken(header).Some? ==> d == Reject(InvalidToken)
    ensures g.enabled && !g.providerReady ==> d.Reject?
  {
    if !g.enabled then Admit(None)
    else
      match BearerToken(header)
      case None => Reject(MissingToken)
      case Some(token) =>
        var decoded := if g.providerReady then verify(token) else None;
        if decoded.Some? then Admit(decoded) else Reject(InvalidToken)
  }

  /** A header of exactly `Bearer ` carries an empty token, which counts as
      no token at all. */
  lemma BareBearerIsMissing(g: Gate, verify: string -> Option<Identity>)
    requires g.enabled
    ensures Authenticate(g, BearerPrefix, verify) == Reject(MissingToken)
  {
  }

  /** The gate is enforcing unless the flag is exactly `true`: an unset
      flag, or any other spelling, keeps authentication on. */
  lemma EnforcingByDefault(projectId: Option<string>, flag: string)
    requires flag != "true"
    ensures LoadGate(None, projectId).enabled
    ensures LoadGate(Some(flag), projectId).enabled
  {
  }
}
