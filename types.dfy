/**
 * Shared vocabulary of the authentication flow: optional values, results,
 * the failures the authenticator raises and its configuration.
 */
module Types {

  /** `None` in the source: "no credentials here", not an error. */
  datatype Option<+T> = None | Some(value: T)

  /** A value, or the failure that aborts the authentication call. */
  datatype Result<+T, +E> = Ok(value: T) | Err(error: E)

  /**
   * The two ways an authentication call can end without a result:
   * `AuthenticationFailed` is the framework's authentication-failure exception
   * carrying its user-visible detail message; `Uncaught` is any other
   * exception that leaves the authenticator unhandled (named by its kind).
   */
  datatype AuthError =
    | AuthenticationFailed(detail: string)
    | Uncaught(kind: string)

  /**
   * The authenticator's configuration: the class attributes
   * `auth_header_prefix` and `www_authenticate_realm`, and the deployment
   * flag `FIREBASE_EMAIL_VERIFICATION`.
   */
  datatype Config = Config(authHeaderPrefix: string, realm: string, emailVerification: bool)

  /** The class defaults of `auth_header_prefix` and `www_authenticate_realm`. */
  const DefaultPrefix: string := "Bearer"
  const DefaultRealm: string := "api"
}
