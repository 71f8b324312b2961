/**
 * The credential extractor (`get_token`) and the challenge header
 * (`authenticate_header`) of the Firebase authenticator.
 *
 * A header is modelled as a string whose characters stand for the bytes of
 * the `Authorization` header; an absent header is the empty string.
 */
module Header {
  import opened Types

  const NoCredentialsMsg: string := "Invalid Authorization header. No credentials provided."
  const SpacesMsg: string := "Invalid Authorization header. Credentials string should not contain spaces."

  // ---------------------------------------------------------------------------
  // Splitting on whitespace (the behaviour of bytes.split() without arguments)
  // ---------------------------------------------------------------------------

  /** ASCII whitespace: space, and tab, line feed, vertical tab, form feed, carriage return. */
  predicate IsSpace(c: char) {
    c == ' ' || '\t' <= c <= '\r'
  }

  /** What a split produces: a non-empty run of non-whitespace characters. */
  predicate IsToken(t: string) {
    |t| > 0 && forall i :: 0 <= i < |t| ==> !IsSpace(t[i])
  }

  predicate AllTokens(ts: seq<string>) {
    forall i :: 0 <= i < |ts| ==> IsToken(ts[i])
  }

  predicate AllSpace(s: string) {
    forall i :: 0 <= i < |s| ==> IsSpace(s[i])
  }

  /** Length of the leading run of non-whitespace characters of `s`. */
  function WordLength(s: string): (n: nat)
    ensures n <= |s|
    ensures forall i :: 0 <= i < n ==> !IsSpace(s[i])
    ensures n < |s| ==> IsSpace(s[n])
  {
    if s == [] || IsSpace(s[0]) then 0 else 1 + WordLength(s[1..])
  }

  /**
   * The maximal runs of non-whitespace characters of `s`, in order; leading,
   * trailing and repeated whitespace produce no empty pieces.
   */
  function Split(s: string): (parts: seq<string>)
    ensures AllTokens(parts)
    decreases |s|
  {
    if s == [] then []
    else if IsSpace(s[0]) then Split(s[1..])
    else
      var n := WordLength(s);
      [s[..n]] + Split(s[n..])
  }

  /** The tokens joined by single spaces: the canonical header carrying them. */
  function Join(ts: seq<string>): string {
    if ts == [] then ""
    else if |ts| == 1 then ts[0]
    else ts[0] + " " + Join(ts[1..])
  }

  /** A string splits into nothing exactly when it is all whitespace (the absent header among them). */
  lemma {:induction false} SplitEmptyIff(s: string)
    ensures Split(s) == [] <==> AllSpace(s)
    decreases |s|
  {
    if s != [] {
      if IsSpace(s[0]) {
        SplitEmptyIff(s[1..]);
        assert AllSpace(s) <==> AllSpace(s[1..]) by {
          if AllSpace(s[1..]) {
            forall i | 0 <= i < |s| ensures IsSpace(s[i]) {
              if i > 0 { assert s[i] == s[1..][i - 1]; }
            }
          }
        }
      } else {
        assert !AllSpace(s);
      }
    }
  }

  /** The leading token of `t + rest` is `t` when `rest` is empty or starts with whitespace. */
  lemma {:induction false} WordLengthOfToken(t: string, rest: string)
    requires forall i :: 0 <= i < |t| ==> !IsSpace(t[i])
    requires rest == [] || IsSpace(rest[0])
    ensures WordLength(t + rest) == |t|
    decreases |t|
  {
    if t != [] {
      assert (t + rest)[1..] == t[1..] + rest;
      WordLengthOfToken(t[1..], rest);
    }
  }

  lemma SplitToken(t: string, rest: string)
    requires IsToken(t)
    requires rest == [] || IsSpace(rest[0])
    ensures Split(t + rest) == [t] + Split(rest)
  {
    WordLengthOfToken(t, rest);
    var s := t + rest;
    assert s[..|t|] == t;
    assert s[|t|..] == rest;
  }

  /** Splitting undoes joining: `Join` is a right inverse of `Split` on token sequences. */
  lemma {:induction false} SplitJoin(ts: seq<string>)
    requires AllTokens(ts)
    ensures Split(Join(ts)) == ts
  {
    if ts == [] {
    } else if |ts| == 1 {
      SplitToken(ts[0], "");
      assert ts[0] + "" == ts[0];
    } else {
      var rest := " " + Join(ts[1..]);
      SplitToken(ts[0], rest);
      assert ts[0] + " " + Join(ts[1..]) == ts[0] + rest;
      assert rest[1..] == Join(ts[1..]);
      SplitJoin(ts[1..]);
      assert [ts[0]] + ts[1..] == ts;
    }
  }

  /** A leading word that stops inside `s` is not lengthened by what follows `s`. */
  lemma {:induction false} WordLengthOfPrefix(s: string, t: string)
    requires WordLength(s) < |s|
    ensures WordLength(s + t) == WordLength(s)
    decreases |s|
  {
    if !IsSpace(s[0]) {
      assert (s + t)[1..] == s[1..] + t;
      WordLengthOfPrefix(s[1..], t);
    }
  }

  /**
   * Any single whitespace character separates: the pieces of `a`, a
   * whitespace character and `b` are the pieces of `a` followed by those of
   * `b`. With `Split(t) == [t]` for a token `t` this fixes `Split` on every
   * string, whatever its runs of whitespace.
   */
  lemma {:induction false} SplitAtSpace(a: string, c: char, b: string)
    requires IsSpace(c)
    ensures Split(a + [c] + b) == Split(a) + Split(b)
    decreases |a|
  {
    var s := a + [c] + b;
    if a == [] {
      assert s[1..] == b;
    } else if IsSpace(a[0]) {
      assert s[1..] == a[1..] + [c] + b;
      SplitAtSpace(a[1..], c, b);
    } else if WordLength(a) < |a| {
      var n := WordLength(a);
      WordLengthOfPrefix(a, [c] + b);
      assert s == a + ([c] + b);
      assert s[..n] == a[..n];
      assert s[n..] == a[n..] + [c] + b;
      SplitAtSpace(a[n..], c, b);
    } else {
      WordLengthOfToken(a, [c] + b);
      assert s == a + ([c] + b);
      assert s[..|a|] == a;
      assert s[|a|..] == [c] + b;
      assert ([c] + b)[1..] == b;
      assert a[..|a|] == a && a[|a|..] == [];
    }
  }

  /** A token splits into itself. */
  lemma SplitOfToken(t: string)
    requires IsToken(t)
    ensures Split(t) == [t]
  {
    SplitToken(t, "");
    assert t + "" == t;
  }

  // ---------------------------------------------------------------------------
  // Case-insensitive comparison of the scheme (bytes.lower() on ASCII letters)
  // ---------------------------------------------------------------------------

  function LowerChar(c: char): char {
    if 'A' <= c <= 'Z' then (c as int + 32) as char else c
  }

  /** The string with every ASCII capital letter replaced by its small letter. */
  function Lower(s: string): (r: string)
    ensures |r| == |s|
    ensures forall i :: 0 <= i < |s| ==> r[i] == LowerChar(s[i])
  {
    if s == [] then [] else [LowerChar(s[0])] + Lower(s[1..])
  }

  /**
   * Two characters lower to the same character exactly when they are equal
   * or are the capital and small forms of one ASCII letter.
   */
  lemma LowerCharIgnoresCase(c: char, d: char)
    ensures LowerChar(c) == LowerChar(d) <==>
              || c == d
              || ('A' <= c <= 'Z' && d as int == c as int + 32)
              || ('A' <= d <= 'Z' && c as int == d as int + 32)
  {
  }

  /** Reference definition of case-insensitive equality, letter by letter. */
  predicate EqualIgnoringCase(a: string, b: string) {
    |a| == |b| && forall i :: 0 <= i < |a| ==> LowerChar(a[i]) == LowerChar(b[i])
  }

  lemma LowerEqualIff(a: string, b: string)
    ensures Lower(a) == Lower(b) <==> EqualIgnoringCase(a, b)
  {
    if EqualIgnoringCase(a, b) {
      assert forall i :: 0 <= i < |a| ==> Lower(a)[i] == Lower(b)[i];
    }
  }

  // ---------------------------------------------------------------------------
  // get_token
  // ---------------------------------------------------------------------------

  /**
   * The raw credential of the `Authorization` header, `None` when the header
   * is not this authenticator's concern, or the failure for a malformed one.
   */
  function GetToken(header: string, prefix: string): (r: Result<Option<string>, AuthError>)
    ensures |Split(header)| == 1 ==> r == Err(AuthenticationFailed(NoCredentialsMsg))
    ensures |Split(header)| > 2 ==> r == Err(AuthenticationFailed(SpacesMsg))
    ensures r.Err? <==> |Split(header)| == 1 || |Split(header)| > 2
    ensures r == Ok(None) <==>
              |Split(header)| == 0 || (|Split(header)| == 2 && !EqualIgnoringCase(Split(header)[0], prefix))
    ensures r.Ok? && r.value.Some? ==>
              |Split(header)| == 2 && EqualIgnoringCase(Split(header)[0], prefix) && r.value.value == Split(header)[1]
  {
    var parts := Split(header);
    if |parts| == 0 then Ok(None)
    else if |parts| == 1 then Err(AuthenticationFailed(NoCredentialsMsg))
    else if |parts| > 2 then Err(AuthenticationFailed(SpacesMsg))
    else
      LowerEqualIff(parts[0], prefix);
      if Lower(parts[0]) != Lower(prefix) then Ok(None)
      else Ok(Some(parts[1]))
  }

  /** For the canonical header of a token sequence, the decision table is read off the tokens. */
  lemma GetTokenOfTokens(ts: seq<string>, prefix: string)
    requires AllTokens(ts)
    ensures ts == [] ==> GetToken(Join(ts), prefix) == Ok(None)
    ensures |ts| == 1 ==> GetToken(Join(ts), prefix) == Err(AuthenticationFailed(NoCredentialsMsg))
    ensures |ts| > 2 ==> GetToken(Join(ts), prefix) == Err(AuthenticationFailed(SpacesMsg))
    ensures |ts| == 2 ==>
              GetToken(Join(ts), prefix) == if EqualIgnoringCase(ts[0], prefix) then Ok(Some(ts[1])) else Ok(None)
  {
    SplitJoin(ts);
  }

  /** A header that is absent or only whitespace yields no credential and no failure. */
  lemma BlankHeaderGivesNone(header: string, prefix: string)
    requires AllSpace(header)
    ensures GetToken(header, prefix) == Ok(None)
  {
    SplitEmptyIff(header);
  }

  /** A two-token header whose scheme matches the prefix up to case yields its second token. */
  lemma MatchingSchemeGivesToken(scheme: string, credential: string, prefix: string)
    requires IsToken(scheme) && IsToken(credential)
    requires EqualIgnoringCase(scheme, prefix)
    ensures GetToken(scheme + " " + credential, prefix) == Ok(Some(credential))
  {
    assert Join([scheme, credential]) == scheme + " " + credential;
    GetTokenOfTokens([scheme, credential], prefix);
  }

  /** `Bearer x` gives `x` with the default scheme. */
  lemma CapitalisedScheme()
    ensures GetToken("Bearer x", DefaultPrefix) == Ok(Some("x"))
  {
    assert "Bearer" + " " + "x" == "Bearer x";
    MatchingSchemeGivesToken("Bearer", "x", DefaultPrefix);
  }

  /** `bearer x` gives `x` with the default scheme. */
  lemma LowerCaseScheme()
    ensures GetToken("bearer x", DefaultPrefix) == Ok(Some("x"))
  {
    assert EqualIgnoringCase("bearer", DefaultPrefix) by {
      assert LowerChar('B') == 'b';
    }
    assert "bearer" + " " + "x" == "bearer x";
    MatchingSchemeGivesToken("bearer", "x", DefaultPrefix);
  }

  /** `BEARER x` gives `x` with the default scheme. */
  lemma UpperCaseScheme()
    ensures GetToken("BEARER x", DefaultPrefix) == Ok(Some("x"))
  {
    assert EqualIgnoringCase("BEARER", DefaultPrefix) by {
      assert LowerChar('B') == 'b' && LowerChar('E') == 'e' && LowerChar('A') == 'a' && LowerChar('R') == 'r';
    }
    assert "BEARER" + " " + "x" == "BEARER x";
    MatchingSchemeGivesToken("BEARER", "x", DefaultPrefix);
  }

  /** A run of whitespace, empty or not, between `a` and `b` is dropped once `a` ends in whitespace or is empty. */
  lemma {:induction false} SplitDropsSpaces(w: string, b: string)
    requires AllSpace(w)
    ensures Split(w + b) == Split(b)
    decreases |w|
  {
    if w != [] {
      assert w + b == [] + [w[0]] + (w[1..] + b);
      SplitAtSpace([], w[0], w[1..] + b);
      SplitDropsSpaces(w[1..], b);
    } else {
      assert w + b == b;
    }
  }

  /**
   * Runs of whitespace before, between and after the two pieces do not
   * matter: the scheme and the credential are still found.
   */
  lemma PaddedHeaderGivesToken(w1: string, scheme: string, w2: string, credential: string, w3: string,
                               prefix: string)
    requires AllSpace(w1) && AllSpace(w2) && AllSpace(w3) && |w2| > 0
    requires IsToken(scheme) && IsToken(credential)
    requires EqualIgnoringCase(scheme, prefix)
    ensures GetToken(w1 + scheme + w2 + credential + w3, prefix) == Ok(Some(credential))
  {
    var h := w1 + scheme + w2 + credential + w3;
    assert h == w1 + (scheme + [w2[0]] + (w2[1..] + credential + w3));
    SplitDropsSpaces(w1, scheme + [w2[0]] + (w2[1..] + credential + w3));
    SplitAtSpace(scheme, w2[0], w2[1..] + credential + w3);
    assert w2[1..] + credential + w3 == w2[1..] + (credential + w3);
    SplitDropsSpaces(w2[1..], credential + w3);
    SplitDropsSpaces(w3, []);
    assert w3 + [] == w3;
    SplitEmptyIff(w3);
    SplitToken(credential, w3);
    if w3 == [] {
      assert credential + w3 == credential;
    }
    SplitOfToken(scheme);
    assert Split(h) == [scheme, credential];
  }

  /** `\tbearer  x \n` gives `x` with the default scheme. */
  lemma PaddedHeader()
    ensures GetToken("\tbearer  x \n", DefaultPrefix) == Ok(Some("x"))
  {
    assert "\tbearer  x \n" == "\t" + "bearer" + "  " + "x" + " \n";
    assert EqualIgnoringCase("bearer", DefaultPrefix) by {
      assert LowerChar('B') == 'b';
    }
    PaddedHeaderGivesToken("\t", "bearer", "  ", "x", " \n", DefaultPrefix);
  }

  /** A lone scheme is malformed: no credentials provided. */
  lemma LoneScheme()
    ensures GetToken("Bearer", DefaultPrefix) == Err(AuthenticationFailed(NoCredentialsMsg))
  {
    assert Join(["Bearer"]) == "Bearer";
    GetTokenOfTokens(["Bearer"], DefaultPrefix);
  }

  /** A credential with a space in it is malformed. */
  lemma CredentialWithSpace()
    ensures GetToken("Bearer abc def", DefaultPrefix) == Err(AuthenticationFailed(SpacesMsg))
  {
    assert AllTokens(["Bearer", "abc", "def"]);
    assert Join(["Bearer", "abc", "def"]) == "Bearer abc def";
    GetTokenOfTokens(["Bearer", "abc", "def"], DefaultPrefix);
  }

  /** Another scheme is not this authenticator's concern. */
  lemma OtherScheme()
    ensures GetToken("Basic abc", DefaultPrefix) == Ok(None)
  {
    assert Join(["Basic", "abc"]) == "Basic abc";
    assert !EqualIgnoringCase("Basic", DefaultPrefix) by {
      assert LowerChar("Basic"[1]) != LowerChar(DefaultPrefix[1]);
    }
    GetTokenOfTokens(["Basic", "abc"], DefaultPrefix);
  }

  // ---------------------------------------------------------------------------
  // authenticate_header
  // ---------------------------------------------------------------------------

  /** The `WWW-Authenticate` challenge: `<prefix> realm="<realm>"`. */
  function AuthenticateHeader(prefix: string, realm: string): (h: string)
    ensures |h| == |prefix| + |realm| + 9
    ensures h[..|prefix|] == prefix
    ensures h[|prefix|..|prefix| + 8] == " realm=\""
    ensures h[|prefix| + 8..|h| - 1] == realm
    ensures h[|h| - 1] == '"'
  {
    prefix + " realm=\"" + realm + "\""
  }

  /** With the class defaults the challenge is exactly `Bearer realm="api"`. */
  lemma DefaultChallenge()
    ensures AuthenticateHeader(DefaultPrefix, DefaultRealm) == "Bearer realm=\"api\""
  {
  }

  /** The challenge's first token is the scheme that `GetToken` accepts. */
  lemma ChallengeNamesAcceptedScheme(prefix: string, realm: string)
    requires IsToken(prefix)
    ensures |Split(AuthenticateHeader(prefix, realm))| >= 1
    ensures EqualIgnoringCase(Split(AuthenticateHeader(prefix, realm))[0], prefix)
  {
    var rest := " realm=\"" + realm + "\"";
    assert AuthenticateHeader(prefix, realm) == prefix + rest;
    SplitToken(prefix, rest);
  }
}
