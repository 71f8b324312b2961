/**
 * The top-level `authenticate` operation: extract the credential, hand it to
 * the token verifier, map the verifier's failures to messages, and resolve
 * the verified claims to a local user.
 */
module Authentication {
  import opened Types
  import opened Header
  import opened Identity

  const InvalidTokenMsg: string := "Invalid token."
  const CouldNotLogInMsg: string := "Could not log in."

  /**
   * What the token verifier (`auth.verify_id_token`) can do with what it is
   * given: decode it, or raise a parse error (`ValueError`), one of the three
   * rejections, or some other exception the authenticator does not catch.
   * The verifier receives `None` when no credential was extracted.
   */
  datatype Verdict =
    | Decoded(payload: Claims)
    | ValueError
    | ExpiredIdToken
    | InvalidIdToken
    | RevokedIdToken
    | OtherError(kind: string)

  predicate IsRejection(v: Verdict) {
    v.ExpiredIdToken? || v.InvalidIdToken? || v.RevokedIdToken?
  }

  /** The failure `authenticate` raises for a verifier failure. */
  function VerifyFailure(v: Verdict): (e: AuthError)
    requires !v.Decoded?
    ensures v.ValueError? ==> e == AuthenticationFailed(InvalidTokenMsg)
    ensures IsRejection(v) ==> e == AuthenticationFailed(CouldNotLogInMsg)
    ensures v.OtherError? ==> e == Uncaught(v.kind)
  {
    match v
    case ValueError => AuthenticationFailed(InvalidTokenMsg)
    case ExpiredIdToken => AuthenticationFailed(CouldNotLogInMsg)
    case InvalidIdToken => AuthenticationFailed(CouldNotLogInMsg)
    case RevokedIdToken => AuthenticationFailed(CouldNotLogInMsg)
    case OtherError(kind) => Uncaught(kind)
  }

  /**
   * A token that does not parse reads "Invalid token."; the three rejections
   * all read "Could not log in." and cannot be told apart by the caller; any
   * other verifier exception is not caught.
   */
  lemma VerifierFailureMessages(v: Verdict, w: Verdict)
    requires IsRejection(v) && IsRejection(w)
    ensures VerifyFailure(ValueError) == AuthenticationFailed(InvalidTokenMsg)
    ensures VerifyFailure(v) == VerifyFailure(w) == AuthenticationFailed(CouldNotLogInMsg)
    ensures VerifyFailure(v) != VerifyFailure(ValueError)
    ensures forall kind :: VerifyFailure(OtherError(kind)) == Uncaught(kind)
  {
  }

  /** What authenticating does: the outcome, and the user table afterwards. */
  datatype Outcome = Outcome(result: Result<(User, Claims), AuthError>, users: map<string, User>)

  /**
   * Specification of one `authenticate` call on `header` against the table
   * `users`, with `verify` the token verifier and `providerEmail` the
   * provider's user lookup.
   */
  function AuthenticateSpec(cfg: Config, header: string, verify: Option<string> -> Verdict,
                            providerEmail: string -> string, users: map<string, User>): (o: Outcome)
    // a malformed header fails before the verifier is asked
    ensures GetToken(header, cfg.authHeaderPrefix).Err? ==>
              o == Outcome(Err(GetToken(header, cfg.authHeaderPrefix).error), users)
    // otherwise whatever was extracted, None included, goes to the verifier
    ensures GetToken(header, cfg.authHeaderPrefix).Ok? && !verify(GetToken(header, cfg.authHeaderPrefix).value).Decoded? ==>
              o == Outcome(Err(VerifyFailure(verify(GetToken(header, cfg.authHeaderPrefix).value))), users)
    // a resolver failure on the decoded payload reaches the caller as it is
    ensures GetToken(header, cfg.authHeaderPrefix).Ok? && verify(GetToken(header, cfg.authHeaderPrefix).value).Decoded? &&
            Resolve(users, verify(GetToken(header, cfg.authHeaderPrefix).value).payload, cfg.emailVerification,
                    providerEmail).result.Err? ==>
              o == Outcome(Err(Resolve(users, verify(GetToken(header, cfg.authHeaderPrefix).value).payload,
                                       cfg.emailVerification, providerEmail).result.error), users)
    // a verified token whose claims the resolver accepts makes the call succeed
    ensures GetToken(header, cfg.authHeaderPrefix).Ok? && verify(GetToken(header, cfg.authHeaderPrefix).value).Decoded? &&
            Resolve(users, verify(GetToken(header, cfg.authHeaderPrefix).value).payload, cfg.emailVerification,
                    providerEmail).result.Ok? ==>
              o.result.Ok?
    // every failure leaves the table as it was
    ensures o.result.Err? ==> o.users == users
    // a success pairs the resolved user with the verifier's payload, unchanged
    ensures o.result.Ok? ==>
              && GetToken(header, cfg.authHeaderPrefix).Ok?
              && verify(GetToken(header, cfg.authHeaderPrefix).value) == Decoded(o.result.value.1)
              && Resolve(users, o.result.value.1, cfg.emailVerification, providerEmail)
                 == Resolution(Ok(o.result.value.0), o.users)
  {
    match GetToken(header, cfg.authHeaderPrefix)
    case Err(e) => Outcome(Err(e), users)
    case Ok(token) =>
      match verify(token)
      case Decoded(payload) =>
        var res := Resolve(users, payload, cfg.emailVerification, providerEmail);
        (match res.result
         case Ok(user) => Outcome(Ok((user, payload)), res.users)
         case Err(e) => Outcome(Err(e), res.users))
      case _ => Outcome(Err(VerifyFailure(verify(token))), users)
  }

  /**
   * When no credential is extracted, the call is not answered with "no
   * credentials": it behaves exactly as for an absent header, and the
   * verifier is asked about `None`, whose parse error surfaces as
   * "Invalid token.".
   */
  lemma NoCredentialReachesVerifier(cfg: Config, header: string, verify: Option<string> -> Verdict,
                                    providerEmail: string -> string, users: map<string, User>)
    requires GetToken(header, cfg.authHeaderPrefix) == Ok(None)
    ensures AuthenticateSpec(cfg, header, verify, providerEmail, users)
            == AuthenticateSpec(cfg, "", verify, providerEmail, users)
    ensures verify(None) == ValueError ==>
              AuthenticateSpec(cfg, header, verify, providerEmail, users)
              == Outcome(Err(AuthenticationFailed(InvalidTokenMsg)), users)
    ensures verify(None).Decoded? && AuthenticateSpec(cfg, header, verify, providerEmail, users).result.Ok? ==>
              AuthenticateSpec(cfg, header, verify, providerEmail, users).result.value.1 == verify(None).payload
  {
    BlankHeaderGivesNone("", cfg.authHeaderPrefix);
  }

  /** An absent or blank header behaves as an absent one: its `None` goes to the verifier. */
  lemma BlankHeaderReachesVerifier(cfg: Config, header: string, verify: Option<string> -> Verdict,
                                   providerEmail: string -> string, users: map<string, User>)
    requires AllSpace(header)
    ensures AuthenticateSpec(cfg, header, verify, providerEmail, users)
            == AuthenticateSpec(cfg, "", verify, providerEmail, users)
    ensures verify(None) == ValueError ==>
              AuthenticateSpec(cfg, header, verify, providerEmail, users)
              == Outcome(Err(AuthenticationFailed(InvalidTokenMsg)), users)
  {
    BlankHeaderGivesNone(header, cfg.authHeaderPrefix);
    NoCredentialReachesVerifier(cfg, header, verify, providerEmail, users);
  }

  /**
   * Another scheme is not deferred to other authenticators either: with the
   * default prefix, `Basic abc` sends `None` to the verifier, and a verifier
   * that refuses `None` as unparseable makes the call fail with "Invalid token.".
   */
  lemma OtherSchemeReachesVerifier(cfg: Config, verify: Option<string> -> Verdict,
                                   providerEmail: string -> string, users: map<string, User>)
    requires cfg.authHeaderPrefix == DefaultPrefix
    requires verify(None) == ValueError
    ensures AuthenticateSpec(cfg, "Basic abc", verify, providerEmail, users)
            == Outcome(Err(AuthenticationFailed(InvalidTokenMsg)), users)
  {
    OtherScheme();
    NoCredentialReachesVerifier(cfg, "Basic abc", verify, providerEmail, users);
  }

  /** A malformed header never consults the verifier or the provider. */
  lemma MalformedHeaderIgnoresOracles(cfg: Config, header: string,
                                      verify: Option<string> -> Verdict, verify': Option<string> -> Verdict,
                                      providerEmail: string -> string, providerEmail': string -> string,
                                      users: map<string, User>)
    requires |Split(header)| == 1 || |Split(header)| > 2
    ensures AuthenticateSpec(cfg, header, verify, providerEmail, users)
            == AuthenticateSpec(cfg, header, verify', providerEmail', users)
    ensures AuthenticateSpec(cfg, header, verify, providerEmail, users).result.Err?
  {
  }

  /**
   * First login of a uid: a well-formed bearer header whose token decodes to
   * acceptable claims creates exactly one record, with the provider's email,
   * and returns it with the payload.
   */
  lemma FirstLogin(cfg: Config, scheme: string, credential: string, verify: Option<string> -> Verdict,
                   providerEmail: string -> string, users: map<string, User>, claims: Claims)
    requires IsToken(scheme) && IsToken(credential) && EqualIgnoringCase(scheme, cfg.authHeaderPrefix)
    requires verify(Some(credential)) == Decoded(claims)
    requires claims.signInProvider != AnonymousProvider && (!cfg.emailVerification || claims.emailVerified)
    requires claims.uid !in users
    ensures var o := AuthenticateSpec(cfg, scheme + " " + credential, verify, providerEmail, users);
            var u := User(claims.uid, providerEmail(claims.uid));
            o.result == Ok((u, claims)) && o.users == users[claims.uid := u] && |o.users| == |users| + 1
  {
    MatchingSchemeGivesToken(scheme, credential, cfg.authHeaderPrefix);
  }

  /** A repeat login returns the stored record unchanged and writes nothing. */
  lemma RepeatLogin(cfg: Config, scheme: string, credential: string, verify: Option<string> -> Verdict,
                    providerEmail: string -> string, users: map<string, User>, claims: Claims)
    requires IsToken(scheme) && IsToken(credential) && EqualIgnoringCase(scheme, cfg.authHeaderPrefix)
    requires verify(Some(credential)) == Decoded(claims)
    requires claims.signInProvider != AnonymousProvider && (!cfg.emailVerification || claims.emailVerified)
    requires claims.uid in users
    ensures AuthenticateSpec(cfg, scheme + " " + credential, verify, providerEmail, users)
            == Outcome(Ok((users[claims.uid], claims)), users)
  {
    MatchingSchemeGivesToken(scheme, credential, cfg.authHeaderPrefix);
  }

  /**
   * An anonymous sign-in is refused at the top level with the resolver's
   * message, whatever the email flag and setting, and nothing is written.
   */
  lemma AnonymousLoginRefused(cfg: Config, scheme: string, credential: string, verify: Option<string> -> Verdict,
                              providerEmail: string -> string, users: map<string, User>, claims: Claims)
    requires IsToken(scheme) && IsToken(credential) && EqualIgnoringCase(scheme, cfg.authHeaderPrefix)
    requires verify(Some(credential)) == Decoded(claims)
    requires claims.signInProvider == AnonymousProvider
    ensures AuthenticateSpec(cfg, scheme + " " + credential, verify, providerEmail, users)
            == Outcome(Err(AuthenticationFailed(AnonymousMsg)), users)
  {
    MatchingSchemeGivesToken(scheme, credential, cfg.authHeaderPrefix);
  }

  /**
   * With email verification on, an unconfirmed email is refused at the top
   * level with the resolver's message, and nothing is written.
   */
  lemma UnconfirmedLoginRefused(cfg: Config, scheme: string, credential: string, verify: Option<string> -> Verdict,
                                providerEmail: string -> string, users: map<string, User>, claims: Claims)
    requires IsToken(scheme) && IsToken(credential) && EqualIgnoringCase(scheme, cfg.authHeaderPrefix)
    requires verify(Some(credential)) == Decoded(claims)
    requires claims.signInProvider != AnonymousProvider && cfg.emailVerification && !claims.emailVerified
    ensures AuthenticateSpec(cfg, scheme + " " + credential, verify, providerEmail, users)
            == Outcome(Err(AuthenticationFailed(UnconfirmedMsg)), users)
  {
    MatchingSchemeGivesToken(scheme, credential, cfg.authHeaderPrefix);
  }

  /** `authenticate`: extract, verify, map failures, resolve. */
  method Authenticate(cfg: Config, header: string, verify: Option<string> -> Verdict,
                      providerEmail: string -> string, store: UserStore)
    returns (r: Result<(User, Claims), AuthError>)
    requires store.Valid()
    modifies store
    ensures store.Valid()
    ensures Outcome(r, store.users) == AuthenticateSpec(cfg, header, verify, providerEmail, old(store.users))
  {
    var token := GetToken(header, cfg.authHeaderPrefix);
    if token.Err? {
      return Err(token.error);
    }
    var verdict := verify(token.value);
    match verdict {
      case Decoded(payload) =>
        var user := AuthenticateCredentials(payload, cfg.emailVerification, store, providerEmail);
        match user {
          case Ok(u) => r := Ok((u, payload));
          case Err(e) => r := Err(e);
        }
      case _ =>
        r := Err(VerifyFailure(verdict));
    }
  }
}
