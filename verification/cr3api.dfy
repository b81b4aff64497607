/**
 * The CR3 download API: reading the bearer token out of the `Authorization` header
 * (section 2.1 of RFC 6750), matching a required scope against the space-separated
 * `scope` claim (section 3.3 of RFC 6749), choosing the signing key by its `kid`
 * (section 4.1.4 of RFC 7515), and the storage key of a crash report.
 */
module Cr3Api {
  import opened Results
  import opened Strings
  import opened Dicts
  import opened PyValues

  /** The error body and status the API answers with. */
  datatype AuthError = AuthError(code: string, description: string, statusCode: int)

  /** How a request is turned away: an `AuthError`, or an exception the handler does not catch. */
  datatype Failure = Auth(error: AuthError) | Uncaught(exception: string)

  const Unauthorized: int := 401

  const HeaderMissing := AuthError("authorization_header_missing", "Authorization header is expected", Unauthorized)
  const NotBearer := AuthError("invalid_header", "Authorization header must start with Bearer", Unauthorized)
  const TokenNotFound := AuthError("invalid_header", "Token not found", Unauthorized)
  const NotBearerToken := AuthError("invalid_header", "Authorization header must be Bearer token", Unauthorized)
  const NotRs256 := AuthError("invalid_header", "Invalid header. Use an RS256 signed JWT Access Token", Unauthorized)
  const NoMatchingKey := AuthError("invalid_header", "Unable to find appropriate key", Unauthorized)

  /**
   * `get_token_auth_header` on the header value (None when the request has none).
   * The scheme is checked before the number of parts; a header of whitespace only
   * has no first part, and indexing it raises.
   */
  function TokenAuthHeader(auth: Option<string>): Result<string, Failure> {
    if auth.None? || auth.value == "" then Err(Auth(HeaderMissing))
    else
      var parts := SplitWhitespace(auth.value);
      if parts == [] then Err(Uncaught("IndexError"))
      else if LowerAscii(parts[0]) != "bearer" then Err(Auth(NotBearer))
      else if |parts| == 1 then Err(Auth(TokenNotFound))
      else if |parts| > 2 then Err(Auth(NotBearerToken))
      else Ok(parts[1])
  }

  /**
   * A token comes out exactly when the header is two whitespace-separated words, the
   * first "Bearer" in any case; every refusal is a 401.
   */
  lemma TokenAuthHeaderSpec(auth: Option<string>)
    ensures TokenAuthHeader(auth).Ok? <==>
      (auth.Some? && |SplitWhitespace(auth.value)| == 2 && LowerAscii(SplitWhitespace(auth.value)[0]) == "bearer")
    ensures TokenAuthHeader(auth).Ok? ==> TokenAuthHeader(auth).value == SplitWhitespace(auth.value)[1]
    ensures TokenAuthHeader(auth).Err? && TokenAuthHeader(auth).error.Auth? ==>
      TokenAuthHeader(auth).error.error.statusCode == Unauthorized
    ensures TokenAuthHeader(auth).Err? && TokenAuthHeader(auth).error.Uncaught? ==>
      auth.Some? && auth.value != "" && OnlySpace(auth.value)
  {
  }

  /** A header written as "Bearer <token>" gives the token back. */
  lemma BearerHeaderRoundTrip(token: string)
    requires token != [] && NoSpace(token)
    ensures TokenAuthHeader(Some("Bearer " + token)) == Ok(token)
  {
    var words := ["Bearer", token];
    assert NoSpace("Bearer");
    SplitWhitespaceJoin(words);
    assert Join(words[1..], " ") == token;
    assert Join(words, " ") == "Bearer " + token;
    assert LowerAscii("Bearer") == "bearer";
  }

  /** Any other scheme is refused before the parts are counted, however many there are. */
  lemma OtherSchemeRefused(scheme: string, rest: string)
    requires scheme != [] && NoSpace(scheme) && LowerAscii(scheme) != "bearer"
    requires rest == [] || IsSpace(rest[0])
    ensures TokenAuthHeader(Some(scheme + rest)) == Err(Auth(NotBearer))
  {
    SplitWhitespaceWord(scheme, rest);
  }

  /**
   * `requires_scope`: the header is read first; then the `scope` claim of the token,
   * when present and truthy, is split on whitespace and searched for the required scope.
   * A truthy claim that is not a string has no `split`, and that raises.
   */
  method RequiresScope(required: string, auth: Option<string>, claims: Dict<PyValue>) returns (r: Result<bool, Failure>)
    ensures TokenAuthHeader(auth).Err? ==> r == Err(TokenAuthHeader(auth).error)
    ensures TokenAuthHeader(auth).Ok? ==> (r.Err? <==> ScopeClaimRaises(claims))
    ensures r == Ok(true) <==>
      (TokenAuthHeader(auth).Ok? && Granted(required, Get(claims, "scope")))
  {
    var token := TokenAuthHeader(auth);
    if token.Err? {
      return Err(token.error);
    }
    var claim := Get(claims, "scope");
    if claim.Some? && PyTruthy(claim.value) {
      if !claim.value.PStr? {
        return Err(Uncaught("AttributeError"));
      }
      var tokenScopes := SplitWhitespace(claim.value.s);
      var i := 0;
      while i < |tokenScopes|
        invariant 0 <= i <= |tokenScopes|
        invariant required !in tokenScopes[..i]
      {
        if tokenScopes[i] == required {
          return Ok(true);
        }
        i := i + 1;
      }
    }
    return Ok(false);
  }

  predicate ScopeClaimRaises(claims: Dict<PyValue>) {
    Get(claims, "scope").Some? && PyTruthy(Get(claims, "scope").value) && !Get(claims, "scope").value.PStr?
  }

  /** The claim is a string one of whose whitespace-separated words is the required scope. */
  predicate Granted(required: string, claim: Option<PyValue>) {
    claim.Some? && claim.value.PStr? && required in SplitWhitespace(claim.value.s)
  }

  /**
   * A claim listing scopes separated by single spaces grants exactly the listed scopes;
   * an empty scope, or one holding whitespace, is never granted.
   */
  lemma GrantedScopes(scopes: seq<string>, required: string)
    requires forall k :: 0 <= k < |scopes| ==> scopes[k] != [] && NoSpace(scopes[k])
    ensures Granted(required, Some(PStr(Join(scopes, " ")))) <==> required in scopes
    ensures (required == [] || !NoSpace(required)) ==> !Granted(required, Some(PStr(Join(scopes, " "))))
  {
    SplitWhitespaceJoin(scopes);
  }

  /** The key the signature is checked against: the five members copied out of the key set's entry. */
  datatype Jwk = Jwk(kty: string, kid: string, use_: string, n: string, e: string)

  /**
   * `{"kty": key["kty"], "kid": key["kid"], ...}` over an entry of the key set, a JSON
   * object; None when a member is missing and the lookup raises `KeyError`.
   */
  function CopyKey(key: Dict<string>): (r: Option<Jwk>)
    ensures r.Some? <==> (Get(key, "kty").Some? && Get(key, "kid").Some? && Get(key, "use").Some?
                          && Get(key, "n").Some? && Get(key, "e").Some?)
    ensures r.Some? ==> (Some(r.value.kid) == Get(key, "kid") && Some(r.value.kty) == Get(key, "kty")
                         && Some(r.value.use_) == Get(key, "use") && Some(r.value.n) == Get(key, "n")
                         && Some(r.value.e) == Get(key, "e"))
  {
    var kty, kid, use_, n, e := Get(key, "kty"), Get(key, "kid"), Get(key, "use"), Get(key, "n"), Get(key, "e");
    if kty.Some? && kid.Some? && use_.Some? && n.Some? && e.Some? then Some(Jwk(kty.value, kid.value, use_.value, n.value, e.value))
    else None
  }

  /** The key set's entry carries the `kid` the token's header names. */
  predicate Matches(key: Dict<string>, header: Dict<string>) {
    Get(key, "kid").Some? && Get(key, "kid") == Get(header, "kid")
  }

  /**
   * The loop body reads the entry's `kid`, then the header's, then (on a match) the five
   * members: none of them is missing.
   */
  predicate KeyReadable(key: Dict<string>, header: Dict<string>) {
    Get(key, "kid").Some? && Get(header, "kid").Some? && (Matches(key, header) ==> CopyKey(key).Some?)
  }

  /**
   * The choice after the loop has visited `keys`: the first missing member raises `KeyError`;
   * otherwise each matching entry overwrites the choice.
   */
  function ScanKeys(keys: seq<Dict<string>>, header: Dict<string>): Result<Option<Jwk>, Failure>
    decreases |keys|
  {
    if keys == [] then Ok(None)
    else
      var last := keys[|keys| - 1];
      match ScanKeys(keys[..|keys| - 1], header)
      case Err(failure) => Err(failure)
      case Ok(chosen) =>
        if !KeyReadable(last, header) then Err(Uncaught("KeyError"))
        else if Matches(last, header) then Ok(CopyKey(last))
        else Ok(chosen)
  }

  /** `key` is copied from the last entry of the set that matches the header. */
  predicate LastWithKid(keys: seq<Dict<string>>, header: Dict<string>, key: Jwk) {
    exists j :: 0 <= j < |keys| && Matches(keys[j], header) && CopyKey(keys[j]) == Some(key)
      && forall k :: j < k < |keys| ==> !Matches(keys[k], header)
  }

  /**
   * The scan raises exactly when some entry cannot be read, and always with `KeyError`;
   * otherwise it chooses nothing exactly when no entry matches, and else the last match.
   */
  lemma {:induction false} ScanKeysSpec(keys: seq<Dict<string>>, header: Dict<string>)
    ensures ScanKeys(keys, header).Err? <==> exists k :: 0 <= k < |keys| && !KeyReadable(keys[k], header)
    ensures ScanKeys(keys, header).Err? ==> ScanKeys(keys, header) == Err(Uncaught("KeyError"))
    ensures ScanKeys(keys, header).Ok? ==>
      (ScanKeys(keys, header).value.None? <==> forall k :: 0 <= k < |keys| ==> !Matches(keys[k], header))
    ensures ScanKeys(keys, header).Ok? && ScanKeys(keys, header).value.Some? ==>
      LastWithKid(keys, header, ScanKeys(keys, header).value.value)
    decreases |keys|
  {
    if keys != [] {
      var front := keys[..|keys| - 1];
      var last := keys[|keys| - 1];
      ScanKeysSpec(front, header);
      assert forall k :: 0 <= k < |front| ==> front[k] == keys[k];
      var r := ScanKeys(keys, header);
      if r.Ok? && r.value.Some? {
        if Matches(last, header) {
          assert LastWithKid(keys, header, r.value.value) by {
            assert Matches(keys[|keys| - 1], header);
          }
        } else {
          var j :| 0 <= j < |front| && Matches(front[j], header) && CopyKey(front[j]) == Some(r.value.value)
            && forall k :: j < k < |front| ==> !Matches(front[k], header);
          assert forall k :: j < k < |keys| ==> !Matches(keys[k], header);
        }
      }
    }
  }

  /** The loop of `requires_auth` over the key set: every entry with the wanted `kid` overwrites the choice. */
  method SelectKey(keys: seq<Dict<string>>, header: Dict<string>) returns (rsaKey: Result<Option<Jwk>, Failure>)
    ensures rsaKey == ScanKeys(keys, header)
    ensures rsaKey.Err? <==> exists k :: 0 <= k < |keys| && !KeyReadable(keys[k], header)
    ensures rsaKey.Err? ==> rsaKey == Err(Uncaught("KeyError"))
    ensures rsaKey.Ok? ==> (rsaKey.value.None? <==> forall k :: 0 <= k < |keys| ==> !Matches(keys[k], header))
    ensures rsaKey.Ok? && rsaKey.value.Some? ==> LastWithKid(keys, header, rsaKey.value.value)
  {
    var chosen: Option<Jwk> := None;
    var i := 0;
    while i < |keys|
      invariant 0 <= i <= |keys|
      invariant ScanKeys(keys[..i], header) == Ok(chosen)
    {
      var key := keys[i];
      assert keys[..i + 1][..i] == keys[..i];
      if Get(key, "kid").None? || Get(header, "kid").None? {
        ScanKeysSpec(keys, header);
        return Err(Uncaught("KeyError"));
      }
      if Get(key, "kid") == Get(header, "kid") {
        var copy := CopyKey(key);
        if copy.None? {
          ScanKeysSpec(keys, header);
          return Err(Uncaught("KeyError"));
        }
        chosen := copy;
      }
      i := i + 1;
    }
    assert keys[..i] == keys;
    ScanKeysSpec(keys, header);
    return Ok(chosen);
  }

  /**
   * The checks `requires_auth` makes before handing the token to the signature check:
   * the header, then the token's own header (None when it cannot be parsed), its `alg`
   * and the refusal of HS256, then the key. Ok is the key the signature is checked against.
   */
  method Authorize(auth: Option<string>, header: Option<Dict<string>>, keys: seq<Dict<string>>) returns (r: Result<Jwk, Failure>)
    ensures TokenAuthHeader(auth).Err? ==> r == Err(TokenAuthHeader(auth).error)
    ensures TokenAuthHeader(auth).Ok? && (header.None? || Get(header.value, "alg") == Some("HS256")) ==> r == Err(Auth(NotRs256))
    ensures TokenAuthHeader(auth).Ok? && header.Some? && Get(header.value, "alg").None? ==> r == Err(Uncaught("KeyError"))
    ensures r.Ok? <==>
      (TokenAuthHeader(auth).Ok? && header.Some? && Get(header.value, "alg").Some? && Get(header.value, "alg") != Some("HS256")
       && (forall k :: 0 <= k < |keys| ==> KeyReadable(keys[k], header.value))
       && exists k :: 0 <= k < |keys| && Matches(keys[k], header.value))
    ensures r.Ok? ==> LastWithKid(keys, header.value, r.value)
    ensures TokenAuthHeader(auth).Ok? && header.Some? && Get(header.value, "alg").Some? && Get(header.value, "alg") != Some("HS256")
      && (forall k :: 0 <= k < |keys| ==> KeyReadable(keys[k], header.value))
      && (forall k :: 0 <= k < |keys| ==> !Matches(keys[k], header.value))
      ==> r == Err(Auth(NoMatchingKey))
    ensures TokenAuthHeader(auth).Ok? && header.Some? && Get(header.value, "alg").Some? && Get(header.value, "alg") != Some("HS256")
      && (exists k :: 0 <= k < |keys| && !KeyReadable(keys[k], header.value))
      ==> r == Err(Uncaught("KeyError"))
    ensures r.Err? && r.error.Auth? ==> r.error.error.statusCode == Unauthorized
  {
    var token := TokenAuthHeader(auth);
    if token.Err? {
      TokenAuthHeaderSpec(auth);
      return Err(token.error);
    }
    if header.None? {
      return Err(Auth(NotRs256));
    }
    var alg := Get(header.value, "alg");
    if alg.None? {
      return Err(Uncaught("KeyError"));
    }
    if alg.value == "HS256" {
      return Err(Auth(NotRs256));
    }
    var rsaKey := SelectKey(keys, header.value);
    if rsaKey.Err? {
      return Err(rsaKey.error);
    }
    if rsaKey.value.None? {
      return Err(Auth(NoMatchingKey));
    }
    return Ok(rsaKey.value.value);
  }

  /** `re.sub("[^0-9]", "", crash_id)`: every character that is not a decimal digit removed. */
  function SafeCrashId(crashId: string): (safe: string)
    ensures AllDigits(safe) && |safe| <= |crashId|
    decreases crashId
  {
    if crashId == [] then []
    else (if IsDigit(crashId[0]) then [crashId[0]] else []) + SafeCrashId(crashId[1..])
  }

  /** Cleaning distributes over concatenation: the digits keep their order and nothing else survives. */
  lemma {:induction false} SafeCrashIdAppend(a: string, b: string)
    ensures SafeCrashId(a + b) == SafeCrashId(a) + SafeCrashId(b)
  {
    if a != [] {
      assert (a + b)[1..] == a[1..] + b;
      SafeCrashIdAppend(a[1..], b);
    } else {
      assert a + b == b;
    }
  }

  /** Text made only of digits is already safe; so cleaning twice is cleaning once. */
  lemma {:induction false} SafeCrashIdKeepsDigits(s: string)
    requires AllDigits(s)
    ensures SafeCrashId(s) == s
  {
    if s != [] {
      SafeCrashIdKeepsDigits(s[1..]);
    }
  }

  lemma SafeCrashIdIdempotent(crashId: string)
    ensures SafeCrashId(SafeCrashId(crashId)) == SafeCrashId(crashId)
  {
    SafeCrashIdKeepsDigits(SafeCrashId(crashId));
  }

  /** The object key of a crash report: `<location>/<digits>.pdf`. */
  function CrashPdfKey(location: string, crashId: string): string {
    location + "/" + SafeCrashId(crashId) + ".pdf"
  }

  /** Whatever id is requested, the key names a file directly inside the report location. */
  lemma CrashPdfKeyStaysInLocation(location: string, crashId: string)
    ensures CrashPdfKey(location, crashId)[..|location| + 1] == location + "/"
    ensures '/' !in CrashPdfKey(location, crashId)[|location| + 1..]
    ensures CrashPdfKey(location, crashId) == CrashPdfKey(location, SafeCrashId(crashId))
  {
    var key := CrashPdfKey(location, crashId);
    var safe := SafeCrashId(crashId);
    assert key[|location| + 1..] == safe + ".pdf";
    assert '/' !in safe by {
      forall i | 0 <= i < |safe| ensures safe[i] != '/' { assert IsDigit(safe[i]); }
    }
    SafeCrashIdIdempotent(crashId);
  }
}
