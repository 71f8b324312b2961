# Firebase bearer-token authentication for Django REST framework, modelled in Dafny

This project models the request flow of `FirebaseAuthentication`
(`firebase_auth/core/authentication.py`). The flow has three parts.

- **Credential extraction (`get_token`).** The `Authorization` header is split on whitespace. Then:
  - no pieces gives no credential;
  - one piece fails with "No credentials provided.";
  - more than two pieces fail with "Credentials string should not contain spaces.";
  - a scheme that does not match the configured prefix (ignoring case) gives no credential;
  - otherwise the second piece is the raw token.
- **Identity resolution (`authenticate_credentials`, `create_user_from_firebase`).**
  - Anonymous Firebase sign-ins are refused first.
  - When `FIREBASE_EMAIL_VERIFICATION` is set, an unconfirmed email is refused next.
  - Then the local user whose uid field equals the token's `uid` is fetched.
  - If there is none, one is created with the email the provider reports for that uid.
- **Composition (`authenticate`, `authenticate_header`).**
  - The extracted credential goes to the token verifier. When there is none, `None` itself is passed: there is no early return.
  - A parse error becomes "Invalid token.".
  - An expired, invalid or revoked token becomes "Could not log in.".
  - A decoded payload is resolved to a user, and the pair (user, payload) is returned.
  - The challenge header is `<prefix> realm="<realm>"`.

Layout:

- `types.dfy` (module `Types`): `Option`, `Result`, the failure type `AuthError` and the configuration `Config`.
- `header.dfy` (module `Header`): whitespace splitting, ASCII lower-casing, `GetToken` and `AuthenticateHeader`.
- `identity.dfy` (module `Identity`): the claims and user records, and the specification function `Resolve`. It also holds the user table as a class `UserStore`, whose `users` map field is updated in place, and the method `AuthenticateCredentials`, proved equal to `Resolve`.
- `authentication.dfy` (module `Authentication`): the verifier's outcomes, the specification `AuthenticateSpec` and the method `Authenticate`, proved equal to it.

The two calls into the Firebase SDK are function-valued parameters:

- `verify: Option<string> -> Verdict` stands for `auth.verify_id_token`;
- `providerEmail: string -> string` stands for `auth.get_user(uid).email`.

Every property below holds for every such oracle.

## Model

| member | source | states |
|---|---|---|
| `Header.WordLength` | firebase_auth/core/authentication.py:55 | the leading run it measures contains no whitespace and ends at whitespace or at the end of the header |
| `Header.Split` | firebase_auth/core/authentication.py:55 | every piece produced by splitting the header is non-empty and free of whitespace |
| `Header.SplitEmptyIff` | firebase_auth/core/authentication.py:55-58 | a header splits into nothing exactly when it is empty or all whitespace |
| `Header.SplitJoin` | firebase_auth/core/authentication.py:55 | splitting the single-space join of any token sequence gives back that sequence |
| `Header.SplitAtSpace` | firebase_auth/core/authentication.py:55 | any single whitespace character separates: the pieces of `a`, whitespace, `b` are the pieces of `a` followed by those of `b`; together with `SplitOfToken` this fixes the split of every header |
| `Header.SplitOfToken` | firebase_auth/core/authentication.py:55 | a whitespace-free non-empty string splits into itself alone |
| `Header.SplitDropsSpaces` | firebase_auth/core/authentication.py:55 | leading whitespace of any length contributes no piece |
| `Header.Lower` | firebase_auth/core/authentication.py:67 | lower-casing keeps the length and maps every character through ASCII lower-casing |
| `Header.LowerEqualIff` | firebase_auth/core/authentication.py:67 | two strings have equal lower-case forms exactly when they agree letter by letter ignoring case |
| `Header.LowerCharIgnoresCase` | firebase_auth/core/authentication.py:67 | two characters compare equal after lowering exactly when they are equal or are the capital and small forms of one ASCII letter |
| `Header.GetToken` | firebase_auth/core/authentication.py:51-70 | one piece fails with the no-credentials message; more than two fail with the no-spaces message; it is `None` exactly for no pieces or a mismatching scheme; a token is returned only for two pieces whose scheme matches ignoring case, and that token is the second piece |
| `Header.GetTokenOfTokens` | firebase_auth/core/authentication.py:55-70 | the decision table read directly off the tokens of a header |
| `Header.BlankHeaderGivesNone` | firebase_auth/core/authentication.py:55-58 | an absent or whitespace-only header yields no credential and no failure |
| `Header.MatchingSchemeGivesToken` | firebase_auth/core/authentication.py:67-70 | a two-token header whose scheme matches the prefix ignoring case yields its second token |
| `Header.CapitalisedScheme` | firebase_auth/core/authentication.py:67-70 | `Bearer x` gives `x` |
| `Header.LowerCaseScheme` | firebase_auth/core/authentication.py:67-70 | `bearer x` gives `x` |
| `Header.UpperCaseScheme` | firebase_auth/core/authentication.py:67-70 | `BEARER x` gives `x` |
| `Header.PaddedHeaderGivesToken` | firebase_auth/core/authentication.py:55-70 | whitespace runs of any length before, between and after scheme and credential do not change the token extracted |
| `Header.PaddedHeader` | firebase_auth/core/authentication.py:55-70 | a tab, `bearer`, two spaces, `x`, a space and a newline gives `x` |
| `Header.LoneScheme` | firebase_auth/core/authentication.py:60-62 | `Bearer` alone fails with "No credentials provided." |
| `Header.CredentialWithSpace` | firebase_auth/core/authentication.py:63-65 | `Bearer abc def` fails with "Credentials string should not contain spaces." |
| `Header.OtherScheme` | firebase_auth/core/authentication.py:67-68 | `Basic abc` yields no credential |
| `Header.AuthenticateHeader` | firebase_auth/core/authentication.py:104-105 | the challenge consists of the prefix, then ` realm="`, then the realm, then a closing quote; each part can be read back at its position |
| `Header.DefaultChallenge` | firebase_auth/core/authentication.py:27-28 | with the class defaults the challenge is exactly `Bearer realm="api"` |
| `Header.ChallengeNamesAcceptedScheme` | firebase_auth/core/authentication.py:104-105 | for a non-empty, whitespace-free prefix, the first whitespace-separated piece of the challenge is a scheme `GetToken` accepts |
| `Identity.Resolve` | firebase_auth/core/authentication.py:72-93 | anonymous sign-in fails first, whatever the email flag says; an unconfirmed email fails next when verification is on; these are the only failures and they leave the table alone; an existing record is returned as it is, without writes; a missing one is created with key `uid` and the provider's email, and it is the only change; after success the uid maps to the returned user |
| `Identity.ResolveOnlyAdds` | firebase_auth/core/authentication.py:87-93 | no record is deleted or rewritten, and at most the uid's record is added |
| `Identity.ResolveKeepsWellKeyed` | firebase_auth/core/authentication.py:95-102 | every record stays filed under its own key, and the returned user's key is the uid |
| `Identity.ResolveTwice` | firebase_auth/core/authentication.py:87-93 | a repeat login returns the same user and writes nothing, even when the provider's email has changed |
| `Identity.EmailFlagIgnoredWhenDisabled` | firebase_auth/core/authentication.py:82-85 | with verification off, the `email_verified` flag does not affect the outcome |
| `Identity.UserStore.constructor` | firebase_auth/core/authentication.py:14 | gives a handle on the user table (the model class bound at this line), here empty and well keyed; every operation on the table is proved for any well-keyed table, not only an empty one |
| `Identity.UserStore.Get` | firebase_auth/core/authentication.py:88 | gives a record exactly when the key is present, and then the record filed under it |
| `Identity.UserStore.Create` | firebase_auth/core/authentication.py:102 | adds exactly one record for a new key; a taken key raises the integrity error and nothing changes |
| `Identity.CreateUserFromFirebase` | firebase_auth/core/authentication.py:95-102 | for a new uid, the one new record has key `uid` and the provider's email; for a taken uid, the integrity error is raised and nothing changes |
| `Identity.AuthenticateCredentials` | firebase_auth/core/authentication.py:72-93 | its result and the table afterwards are those of `Resolve` on the table before |
| `Authentication.VerifyFailure` | firebase_auth/core/authentication.py:40-45 | a parse error (`ValueError`) becomes "Invalid token."; an expired, invalid or revoked token becomes "Could not log in."; any other verifier exception is passed on uncaught |
| `Authentication.VerifierFailureMessages` | firebase_auth/core/authentication.py:38-45 | a parse error reads "Invalid token."; expired, invalid and revoked all read the identical "Could not log in."; other verifier exceptions are not caught |
| `Authentication.AuthenticateSpec` | firebase_auth/core/authentication.py:31-49 | a malformed header fails before verification; otherwise the extracted value, `None` included, goes to the verifier, and its failures are mapped; a resolver failure (anonymous sign-in, unconfirmed email) reaches the caller unchanged; a verified token whose claims the resolver accepts makes the call succeed, for any header shape; every failure leaves the table unchanged; a success pairs the resolved user with the verifier's payload, unchanged |
| `Authentication.NoCredentialReachesVerifier` | firebase_auth/core/authentication.py:36-42 | when no credential is extracted the call behaves exactly as for an absent header: the verifier receives `None`, and its parse error surfaces as "Invalid token." |
| `Authentication.BlankHeaderReachesVerifier` | firebase_auth/core/authentication.py:36-42 | an absent or blank header is not short-circuited: it behaves as the absent header, and a parse error on `None` surfaces as "Invalid token." |
| `Authentication.OtherSchemeReachesVerifier` | firebase_auth/core/authentication.py:36-42 | `Basic abc` is not deferred to another authenticator: `None` goes to the verifier, and its parse error fails the call with "Invalid token." |
| `Authentication.MalformedHeaderIgnoresOracles` | firebase_auth/core/authentication.py:36-65 | a malformed header fails whatever the verifier and the provider would say |
| `Authentication.FirstLogin` | firebase_auth/core/authentication.py:31-102 | the first login of a uid creates exactly one record, carrying the provider's email, and returns it with the payload |
| `Authentication.RepeatLogin` | firebase_auth/core/authentication.py:31-93 | a repeat login returns the stored record with the payload and leaves the table unchanged |
| `Authentication.AnonymousLoginRefused` | firebase_auth/core/authentication.py:31-78 | a well-formed header whose token decodes to an anonymous sign-in fails the call with "Firebase anonymous sign-in is not supported." and writes nothing |
| `Authentication.UnconfirmedLoginRefused` | firebase_auth/core/authentication.py:31-85 | with email verification on, a token with an unconfirmed email fails the call with "User email not yet confirmed." and writes nothing |
| `Authentication.Authenticate` | firebase_auth/core/authentication.py:31-49 | its result and the table afterwards are those of `AuthenticateSpec` on the table before |

## Left out

- Firebase app initialisation from the credential file at import time (firebase_auth/core/authentication.py:16-17) is left out. It is process start-up I/O.
- `auth.verify_id_token` and `auth.get_user` are not modelled internally. They are cryptography and network calls into the Firebase SDK, and appear only as oracle parameters.
  - The model does not say what the SDK does with `None`. `BlankHeaderReachesVerifier` only shows that `None` reaches it.
- `auth.get_user` failing, or reporting no email, is not modelled. Its lookup is reduced to a total uid-to-email function. In the source such a failure escapes `authenticate` uncaught.
- `smart_text` decoding of the scheme is not modelled. A scheme that is not valid UTF-8 would raise a decoding error instead of comparing unequal. Header characters stand for the header's bytes.
- `Header.Lower`: only ASCII letters are lowered, as `bytes.lower()` does for the scheme. The prefix side uses Python's full Unicode `str.lower()`; the two agree for any ASCII prefix, including the default `Bearer`.
- `ugettext` translation is not modelled. Messages are their English source strings.
- Django settings loading and `get_user_model` are not modelled. The email-verification flag is a field of `Config`.
- The uid field's name (`username` by default) is not modelled. `User.key` is that field's value.
- Other columns and the primary key of Django's user model are not modelled.
- A uid field configured as `email` is not modelled. It would collide with the `email` entry of the creation fields.
- Payload keys missing from the claims dictionary are not modelled. Claims are a typed record, so the `KeyError` the source would raise cannot arise.
- The read-then-create race between concurrent first logins for one uid is not modelled. Only single sequential calls are modelled. `UserStore.Create` does model the uniqueness constraint that would reject the losing write.
- The framework's exception machinery and HTTP 401 responses are not modelled. Failures are the `Err` variant of `Result`.
