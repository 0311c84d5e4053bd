/**
 * The Fetch `Headers` object that the API layer passes to `prepareHeaders`, and
 * the bearer rule both stores apply to it.
 */
module Http {
  import opened Wrappers
  import opened Text

  /** HTTP whitespace: tab, line feed, carriage return and space. */
  predicate IsHttpWhitespace(c: char) {
    c == '\t' || c == '\n' || c == '\r' || c == ' '
  }

  /** Drops the leading HTTP whitespace. */
  function TrimStart(s: string): (r: string)
    ensures |r| <= |s| && r == s[|s| - |r|..]
    ensures r == [] || !IsHttpWhitespace(r[0])
    ensures forall i :: 0 <= i < |s| - |r| ==> IsHttpWhitespace(s[i])
  {
    if s != [] && IsHttpWhitespace(s[0]) then TrimStart(s[1..]) else s
  }

  /** Drops the trailing HTTP whitespace. */
  function TrimEnd(s: string): (r: string)
    ensures |r| <= |s| && r == s[..|r|]
    ensures r == [] || !IsHttpWhitespace(r[|r| - 1])
    ensures forall i :: |r| <= i < |s| ==> IsHttpWhitespace(s[i])
  {
    if s != [] && IsHttpWhitespace(s[|s| - 1]) then TrimEnd(s[..|s| - 1]) else s
  }

  /** The value normalisation of `Headers.set`: leading and trailing HTTP whitespace removed. */
  function Normalize(value: string): (r: string)
    ensures |r| <= |value|
    ensures r == [] || (!IsHttpWhitespace(r[0]) && !IsHttpWhitespace(r[|r| - 1]))
  {
    TrimEnd(TrimStart(value))
  }

  /** A value that neither starts nor ends with HTTP whitespace is its own normal form. */
  lemma NormalizeKeepsTrimmed(value: string)
    requires value == [] || (!IsHttpWhitespace(value[0]) && !IsHttpWhitespace(value[|value| - 1]))
    ensures Normalize(value) == value
  {
  }

  /** Normalising twice is normalising once. */
  lemma NormalizeIdempotent(value: string)
    ensures Normalize(Normalize(value)) == Normalize(value)
  {
    NormalizeKeepsTrimmed(Normalize(value));
  }

  /** The WebIDL `ByteString` conversion accepts only code points up to U+00FF. */
  predicate IsByteString(s: string) {
    forall i :: 0 <= i < |s| ==> s[i] as int <= 0xFF
  }

  predicate IsTokenChar(c: char) {
    'a' <= c <= 'z' || 'A' <= c <= 'Z' || '0' <= c <= '9' || c in "!#$%&'*+-.^_`|~"
  }

  /** A header name: a non-empty token. */
  predicate IsHeaderName(name: string) {
    |name| > 0 && forall i :: 0 <= i < |name| ==> IsTokenChar(name[i])
  }

  /** A normalised header value may not contain NUL, line feed or carriage return. */
  predicate IsHeaderValue(value: string) {
    forall i :: 0 <= i < |value| ==> value[i] != '\0' && value[i] != '\n' && value[i] != '\r'
  }

  /** `headers.set(name, value)` throws a `TypeError` exactly in these cases. */
  predicate SetThrows(name: string, value: string) {
    !IsByteString(name) || !IsByteString(value) || !IsHeaderName(name) || !IsHeaderValue(Normalize(value))
  }

  /** Lower-casing keeps a token a token. */
  lemma LowerKeepsHeaderName(name: string)
    requires IsHeaderName(name)
    ensures IsHeaderName(Lower(name)) && Lower(Lower(name)) == Lower(name)
  {
    LowerAbsorbsCase(name);
  }

  class Headers {
    /** The header list, keyed by lower-cased name. */
    var entries: map<string, string>

    /** Names are stored lower-cased, so two names that differ only in case are one header. */
    ghost predicate Valid()
      reads this
    {
      forall name :: name in entries ==> IsHeaderName(name) && Lower(name) == name
    }

    /** The request's own headers: the endpoints of this application set none. */
    constructor ()
      ensures Valid() && entries == map[]
    {
      entries := map[];
    }

    /**
     * `headers.set(name, value)`: the value is normalised, and the header is
     * stored under the lower-cased name, replacing any earlier value. An invalid
     * name or value throws a `TypeError` and leaves the list as it was.
     */
    method Set(name: string, value: string) returns (typeError: bool)
      requires Valid()
      modifies this
      ensures Valid()
      ensures typeError == SetThrows(name, value)
      ensures typeError ==> entries == old(entries)
      ensures !typeError ==> entries == old(entries)[Lower(name) := Normalize(value)]
    {
      typeError := SetThrows(name, value);
      if !typeError {
        LowerKeepsHeaderName(name);
        entries := entries[Lower(name) := Normalize(value)];
      }
    }
  }

  /** A header list never holds two names that differ only in case. */
  lemma NoCaseVariants(headers: Headers, a: string, b: string)
    requires headers.Valid() && a in headers.entries && b in headers.entries
    ensures Lower(a) == Lower(b) ==> a == b
  {
  }

  /** A token in a JavaScript condition: `null` and the empty string are falsy. */
  predicate Truthy(token: Option<string>) {
    token.Some? && token.value != ""
  }

  /** The value `prepareHeaders` passes to `set` under `authorization`, if it passes any. */
  function BearerValue(token: Option<string>): (value: Option<string>)
    ensures value.Some? <==> Truthy(token)
    ensures value.Some? ==> value.value == "Bearer " + token.value && |value.value| > 7
  {
    if Truthy(token) then Some("Bearer " + token.value) else None
  }

  const Authorization := "authorization"

  lemma AuthorizationIsLowerName()
    ensures IsByteString(Authorization) && IsHeaderName(Authorization) && Lower(Authorization) == Authorization
  {
    var lowered := Lower(Authorization);
    forall i | 0 <= i < |Authorization|
      ensures lowered[i] == Authorization[i]
    {
    }
  }

  /**
   * The body both stores' `prepareHeaders` share: with a truthy token,
   * `headers.set('authorization', `Bearer ${token}`)`; otherwise nothing.
   */
  method SetBearer(headers: Headers, token: Option<string>) returns (typeError: bool)
    requires headers.Valid()
    modifies headers
    ensures headers.Valid()
    ensures typeError <==> Truthy(token) && SetThrows(Authorization, BearerValue(token).value)
    ensures Truthy(token) && !typeError ==>
      headers.entries == old(headers.entries)[Authorization := Normalize(BearerValue(token).value)]
    ensures !Truthy(token) || typeError ==> headers.entries == old(headers.entries)
  {
    var bearer := BearerValue(token);
    typeError := false;
    if bearer.Some? {
      AuthorizationIsLowerName();
      typeError := headers.Set(Authorization, bearer.value);
    }
  }

  /** A base64url character or the dot: the alphabet of a JSON Web Token. */
  predicate IsJwtChar(c: char) {
    'a' <= c <= 'z' || 'A' <= c <= 'Z' || '0' <= c <= '9' || c == '-' || c == '_' || c == '.'
  }

  /** A character that `set` accepts anywhere inside a value. */
  predicate IsValueChar(c: char) {
    c as int <= 0xFF && c != '\0' && c != '\n' && c != '\r'
  }

  /** A value made of value characters is a byte string, and its normal form is a valid header value. */
  lemma ValueCharsAccepted(value: string)
    requires forall i :: 0 <= i < |value| ==> IsValueChar(value[i])
    ensures IsByteString(value) && IsHeaderValue(Normalize(value))
  {
    var start := TrimStart(value);
    forall k | 0 <= k < |start|
      ensures IsValueChar(start[k])
    {
      assert start[k] == value[|value| - |start| + k];
    }
    var normal := TrimEnd(start);
    forall k | 0 <= k < |normal|
      ensures IsValueChar(normal[k])
    {
      assert normal[k] == start[k];
    }
  }

  lemma BearerValueChars(token: string)
    requires forall i :: 0 <= i < |token| ==> IsValueChar(token[i])
    ensures forall i :: 0 <= i < |"Bearer " + token| ==> IsValueChar(("Bearer " + token)[i])
  {
    var value := "Bearer " + token;
    forall i | 0 <= i < |value|
      ensures IsValueChar(value[i])
    {
      if i >= 7 {
        assert value[i] == token[i - 7];
      } else {
        assert value[i] in "Bearer ";
      }
    }
  }

  /** A `Bearer` value of value characters passes `set` under the name `authorization`. */
  lemma BearerOfValueCharsAccepted(token: string)
    requires forall i :: 0 <= i < |token| ==> IsValueChar(token[i])
    ensures !SetThrows(Authorization, "Bearer " + token)
  {
    AuthorizationIsLowerName();
    BearerValueChars(token);
    ValueCharsAccepted("Bearer " + token);
  }

  /**
   * A JSON Web Token is never refused by `set`, and its header value is exactly
   * `Bearer <token>`.
   */
  lemma JwtBearerAccepted(token: string)
    requires token != [] && forall i :: 0 <= i < |token| ==> IsJwtChar(token[i])
    ensures !SetThrows(Authorization, BearerValue(Some(token)).value)
    ensures Normalize(BearerValue(Some(token)).value) == "Bearer " + token
  {
    BearerOfValueCharsAccepted(token);
    var value := "Bearer " + token;
    assert value[|value| - 1] == token[|token| - 1];
    NormalizeKeepsTrimmed(value);
  }

  /** Whitespace after a token is trimmed off the header value. */
  lemma TrailingSpaceTrimmed(token: string)
    requires token != [] && !IsHttpWhitespace(token[|token| - 1])
    ensures Normalize(BearerValue(Some(token + " ")).value) == "Bearer " + token
  {
    var value := "Bearer " + token + " ";
    assert BearerValue(Some(token + " ")).value == value;
    assert TrimStart(value) == value;
    assert value[..|value| - 1] == "Bearer " + token;
    assert ("Bearer " + token)[|value| - 2] == token[|token| - 1];
    assert TrimEnd(value) == TrimEnd("Bearer " + token);
  }
}
