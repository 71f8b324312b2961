/**
 * The identity resolver (`authenticate_credentials` and
 * `create_user_from_firebase`): policy checks on the verified claims, then
 * get-or-create of the local user keyed by the provider's uid.
 */
module Identity {
  import opened Types

  /** The part of the decoded token payload the resolver reads. */
  datatype Claims = Claims(uid: string, emailVerified: bool, signInProvider: string)

  /**
   * A local user record: `key` is the value of the configured uid field
   * (`username` by default), unique across the table.
   */
  datatype User = User(key: string, email: string)

  const AnonymousProvider: string := "anonymous"
  const AnonymousMsg: string := "Firebase anonymous sign-in is not supported."
  const UnconfirmedMsg: string := "User email not yet confirmed."
  /** The store's exception for a second record with an existing unique key. */
  const IntegrityError: string := "IntegrityError"

  /** Every record is filed under its own key. */
  predicate WellKeyed(users: map<string, User>) {
    forall k :: k in users ==> users[k].key == k
  }

  /** What resolving does: the outcome, and the user table afterwards. */
  datatype Resolution = Resolution(result: Result<User, AuthError>, users: map<string, User>)

  /**
   * Specification of one resolution against the table `users`, where
   * `providerEmail` is the identity provider's user lookup (`auth.get_user`)
   * reduced to the email it reports.
   */
  function Resolve(users: map<string, User>, claims: Claims, emailVerification: bool,
                   providerEmail: string -> string): (res: Resolution)
    // anonymous sign-in is refused first, whatever the email flag and setting say
    ensures claims.signInProvider == AnonymousProvider ==>
              res.result == Err(AuthenticationFailed(AnonymousMsg))
    // then an unconfirmed email, when the deployment asks for confirmed ones
    ensures claims.signInProvider != AnonymousProvider && emailVerification && !claims.emailVerified ==>
              res.result == Err(AuthenticationFailed(UnconfirmedMsg))
    // those are the only failures, and a failure leaves the table alone
    ensures res.result.Ok? <==>
              claims.signInProvider != AnonymousProvider && (!emailVerification || claims.emailVerified)
    ensures res.result.Err? ==> res.users == users
    // on success the user returned is the one filed under the uid
    ensures res.result.Ok? ==> claims.uid in res.users && res.users[claims.uid] == res.result.value
    // an existing record is returned as it is, and nothing is written
    ensures res.result.Ok? && claims.uid in users ==>
              res.result.value == users[claims.uid] && res.users == users
    // a missing one is created with the provider's email, and it is the only change
    ensures res.result.Ok? && claims.uid !in users ==>
              res.result.value == User(claims.uid, providerEmail(claims.uid)) &&
              res.users == users[claims.uid := res.result.value]
  {
    if claims.signInProvider == AnonymousProvider then
      Resolution(Err(AuthenticationFailed(AnonymousMsg)), users)
    else if emailVerification && !claims.emailVerified then
      Resolution(Err(AuthenticationFailed(UnconfirmedMsg)), users)
    else if claims.uid in users then
      Resolution(Ok(users[claims.uid]), users)
    else
      var u := User(claims.uid, providerEmail(claims.uid));
      Resolution(Ok(u), users[claims.uid := u])
  }

  /** Resolution never deletes or rewrites a record, and adds at most the uid's. */
  lemma ResolveOnlyAdds(users: map<string, User>, claims: Claims, emailVerification: bool,
                        providerEmail: string -> string)
    ensures var res := Resolve(users, claims, emailVerification, providerEmail);
            && (forall k :: k in users ==> k in res.users && res.users[k] == users[k])
            && res.users.Keys <= users.Keys + {claims.uid}
            && |res.users| <= |users| + 1
  {
    var res := Resolve(users, claims, emailVerification, providerEmail);
    if res.users != users {
      assert res.users.Keys == users.Keys + {claims.uid};
    }
  }

  /** Resolution keeps every record filed under its own key. */
  lemma ResolveKeepsWellKeyed(users: map<string, User>, claims: Claims, emailVerification: bool,
                              providerEmail: string -> string)
    requires WellKeyed(users)
    ensures WellKeyed(Resolve(users, claims, emailVerification, providerEmail).users)
    ensures Resolve(users, claims, emailVerification, providerEmail).result.Ok? ==>
              Resolve(users, claims, emailVerification, providerEmail).result.value.key == claims.uid
  {
  }

  /**
   * A repeat login with the same claims finds the record the first one left,
   * returns the same user and writes nothing, even if the provider's email
   * has changed in between.
   */
  lemma ResolveTwice(users: map<string, User>, claims: Claims, emailVerification: bool,
                     providerEmail: string -> string, laterEmail: string -> string)
    ensures var first := Resolve(users, claims, emailVerification, providerEmail);
            var second := Resolve(first.users, claims, emailVerification, laterEmail);
            second.result == first.result && second.users == first.users
  {
  }

  /** With email verification switched off the `email_verified` flag is never consulted. */
  lemma EmailFlagIgnoredWhenDisabled(users: map<string, User>, claims: Claims, verified: bool,
                                     providerEmail: string -> string)
    ensures Resolve(users, claims.(emailVerified := verified), false, providerEmail) ==
            Resolve(users, claims, false, providerEmail)
  {
  }

  /** The user table (`User.objects`), keyed by the uid field. */
  class UserStore {
    var users: map<string, User>

    ghost predicate Valid()
      reads this
    {
      WellKeyed(users)
    }

    constructor ()
      ensures Valid() && users == map[]
    {
      users := map[];
    }

    /** `User.objects.get(<uid field>=key)`: the record, or `None` for DoesNotExist. */
    method Get(key: string) returns (u: Option<User>)
      ensures u.Some? <==> key in users
      ensures u.Some? ==> u.value == users[key]
    {
      if key in users {
        u := Some(users[key]);
      } else {
        u := None;
      }
    }

    /** `User.objects.create(...)`: a new record, unless its unique key is taken. */
    method Create(key: string, email: string) returns (r: Result<User, AuthError>)
      requires Valid()
      modifies this
      ensures Valid()
      ensures key in old(users) ==> r == Err(Uncaught(IntegrityError)) && users == old(users)
      ensures key !in old(users) ==>
                r == Ok(User(key, email)) && users == old(users)[key := User(key, email)]
    {
      if key in users {
        r := Err(Uncaught(IntegrityError));
      } else {
        var u := User(key, email);
        users := users[key := u];
        r := Ok(u);
      }
    }
  }

  /** `create_user_from_firebase`: a record with key `uid` and the provider's email. */
  method CreateUserFromFirebase(store: UserStore, uid: string, providerEmail: string)
    returns (r: Result<User, AuthError>)
    requires store.Valid()
    modifies store
    ensures store.Valid()
    ensures uid !in old(store.users) ==>
              r == Ok(User(uid, providerEmail)) && store.users == old(store.users)[uid := User(uid, providerEmail)]
    ensures uid in old(store.users) ==> r == Err(Uncaught(IntegrityError)) && store.users == old(store.users)
  {
    r := store.Create(uid, providerEmail);
  }

  /**
   * `authenticate_credentials`: the policy checks in order, then the
   * lookup, and on DoesNotExist the provider lookup and the creation.
   */
  method AuthenticateCredentials(claims: Claims, emailVerification: bool, store: UserStore,
                                 providerEmail: string -> string)
    returns (r: Result<User, AuthError>)
    requires store.Valid()
    modifies store
    ensures store.Valid()
    ensures Resolution(r, store.users) == Resolve(old(store.users), claims, emailVerification, providerEmail)
  {
    if claims.signInProvider == AnonymousProvider {
      return Err(AuthenticationFailed(AnonymousMsg));
    }
    var uid := claims.uid;
    if emailVerification {
      if !claims.emailVerified {
        return Err(AuthenticationFailed(UnconfirmedMsg));
      }
    }
    var found := store.Get(uid);
    match found {
      case Some(u) =>
        r := Ok(u);
      case None =>
        var email := providerEmail(uid);
        r := CreateUserFromFirebase(store, uid, email);
    }
  }
}
