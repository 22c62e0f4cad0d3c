/**
 * The refresh-token strategy's `validate`: once the token has been verified against
 * the refresh secret, the raw token is recovered from the Authorization header and
 * added to the decoded payload, which becomes the request's user.
 */
module RtStrategy {
  import opened Wrappers

  /** A JSON value of the decoded token payload. */
  datatype Value = Str(s: string) | Num(n: int) | Bool(b: bool) | Null

  type Payload = map<string, Value>

  const Scheme := "Bearer"
  const RefreshTokenKey := "refreshToken"

  /** The scheme in lower case followed by its separating space, as some clients send it. */
  const LowerCaseSchemePrefix := "bearer "

  // ----- String.prototype.trim -----

  /** ECMAScript WhiteSpace and LineTerminator code points: what `trim` removes. */
  predicate IsWhiteSpace(c: char) {
    c == '\t' || c == '\n' || c == '\U{000B}' || c == '\U{000C}' || c == '\r' || c == ' ' ||
    c == '\U{00A0}' || c == '\U{1680}' || ('\U{2000}' <= c <= '\U{200A}') ||
    c == '\U{2028}' || c == '\U{2029}' || c == '\U{202F}' || c == '\U{205F}' ||
    c == '\U{3000}' || c == '\U{FEFF}'
  }

  ghost predicate AllWhite(s: string) {
    forall i :: 0 <= i < |s| ==> IsWhiteSpace(s[i])
  }

  /** Neither end of `s` is whitespace. */
  predicate Trimmed(s: string) {
    s == [] || (!IsWhiteSpace(s[0]) && !IsWhiteSpace(s[|s| - 1]))
  }

  /** `s` without its leading whitespace. */
  function TrimStart(s: string): (r: string)
    ensures |r| <= |s| && r == s[|s| - |r|..]
    ensures AllWhite(s[..|s| - |r|])
    ensures r == [] || !IsWhiteSpace(r[0])
  {
    if s != [] && IsWhiteSpace(s[0]) then TrimStart(s[1..]) else s
  }

  /** `s` without its trailing whitespace. */
  function TrimEnd(s: string): (r: string)
    ensures |r| <= |s| && r == s[..|r|]
    ensures AllWhite(s[|r|..])
    ensures r == [] || !IsWhiteSpace(r[|r| - 1])
  {
    if s != [] && IsWhiteSpace(s[|s| - 1]) then TrimEnd(s[..|s| - 1]) else s
  }

  /** `trim()`: `s` without leading and trailing whitespace. */
  function Trim(s: string): (r: string)
    ensures Trimmed(r)
    ensures exists i, j :: 0 <= i <= j <= |s| && r == s[i..j] && AllWhite(s[..i]) && AllWhite(s[j..])
  {
    var t := TrimStart(s);
    var r := TrimEnd(t);
    var i := |s| - |t|;
    assert t == s[i..];
    assert r == s[i..i + |r|];
    assert s[i + |r|..] == t[|r|..];
    r
  }

  /** Whitespace in front of a string does not change its TrimStart. */
  lemma {:induction false} TrimStartSkipsWhite(w: string, t: string)
    requires AllWhite(w)
    ensures TrimStart(w + t) == TrimStart(t)
  {
    if w == [] {
      assert w + t == t;
    } else {
      assert (w + t)[0] == w[0];
      assert (w + t)[1..] == w[1..] + t;
      TrimStartSkipsWhite(w[1..], t);
    }
  }

  /** Trimming an already trimmed string changes nothing. */
  lemma {:induction false} TrimOfTrimmed(t: string)
    requires Trimmed(t)
    ensures Trim(t) == t
  {
  }

  lemma {:induction false} TrimIdempotent(s: string)
    ensures Trim(Trim(s)) == Trim(s)
  {
    TrimOfTrimmed(Trim(s));
  }

  // ----- String.prototype.replace with a string pattern -----

  predicate OccursAt(s: string, pat: string, i: nat) {
    i + |pat| <= |s| && s[i..i + |pat|] == pat
  }

  /** The first occurrence of `pat` in `s` at or after `from`, if any. */
  function IndexOfFrom(s: string, pat: string, from: nat): (r: Option<nat>)
    decreases |s| - from
    ensures r.Some? ==> from <= r.value && OccursAt(s, pat, r.value)
    ensures forall j: nat :: from <= j && (r.None? || j < r.value) ==> !OccursAt(s, pat, j)
  {
    if from + |pat| > |s| then None
    else if OccursAt(s, pat, from) then Some(from)
    else IndexOfFrom(s, pat, from + 1)
  }

  /** `s.replace(pat, rep)`: only the first occurrence is replaced. */
  function ReplaceFirst(s: string, pat: string, rep: string): (r: string)
    ensures (forall j: nat :: !OccursAt(s, pat, j)) ==> r == s
    ensures forall i: nat :: OccursAt(s, pat, i) && (forall j: nat :: j < i ==> !OccursAt(s, pat, j)) ==>
      r == s[..i] + rep + s[i + |pat|..]
  {
    match IndexOfFrom(s, pat, 0)
    case None => s
    case Some(i) => s[..i] + rep + s[i + |pat|..]
  }

  // ----- validate -----

  /** `req.get('authorization').replace('Bearer', '').trim()`. */
  function ExtractRefreshToken(authorization: string): (token: string)
    ensures Trimmed(token)
  {
    Trim(ReplaceFirst(authorization, Scheme, ""))
  }

  /**
   * `validate(req, payload)`: every field of the payload plus `refreshToken`; a
   * `refreshToken` already in the payload is overwritten, since the spread comes first.
   */
  function Validate(authorization: string, payload: Payload): (user: Payload)
    ensures user.Keys == payload.Keys + {RefreshTokenKey}
    ensures user[RefreshTokenKey] == Str(ExtractRefreshToken(authorization))
    ensures forall k :: k in payload && k != RefreshTokenKey ==> user[k] == payload[k]
  {
    payload[RefreshTokenKey := Str(ExtractRefreshToken(authorization))]
  }

  /** Round trip: the scheme, any whitespace, then a trimmed token gives back the token. */
  lemma {:induction false} BearerRoundTrip(w: string, t: string)
    requires AllWhite(w)
    requires Trimmed(t)
    ensures ExtractRefreshToken(Scheme + w + t) == t
  {
    var h := Scheme + w + t;
    assert OccursAt(h, Scheme, 0) by {
      assert h[0..|Scheme|] == Scheme;
    }
    assert ReplaceFirst(h, Scheme, "") == w + t by {
      assert h[|Scheme|..] == w + t;
    }
    TrimStartSkipsWhite(w, t);
    TrimOfTrimmed(t);
  }

  /** The usual header, `Bearer <token>`, yields the token. */
  lemma {:induction false} BearerSpaceRoundTrip(t: string)
    requires Trimmed(t)
    ensures ExtractRefreshToken(Scheme + [' '] + t) == t
  {
    BearerRoundTrip([' '], t);
  }

  /** A header without the word `Bearer` is only trimmed. */
  lemma {:induction false} NoSchemeOnlyTrimmed(authorization: string)
    requires forall j: nat :: !OccursAt(authorization, Scheme, j)
    ensures ExtractRefreshToken(authorization) == Trim(authorization)
  {
  }

  /**
   * The match is case-sensitive: under a lower-case `bearer` scheme the header comes
   * back whole, scheme included.
   */
  lemma {:induction false} LowerCaseSchemeKept(t: string)
    requires Trimmed(t) && t != []
    requires forall j: nat :: !OccursAt(t, Scheme, j)
    ensures ExtractRefreshToken(LowerCaseSchemePrefix + t) == LowerCaseSchemePrefix + t
  {
    var h := LowerCaseSchemePrefix + t;
    var n := |LowerCaseSchemePrefix|;
    assert forall i :: 0 <= i < n ==> h[i] != Scheme[0];
    forall j: nat | OccursAt(h, Scheme, j)
      ensures false
    {
      assert h[j] == h[j..j + |Scheme|][0];
      if j >= n {
        assert h[j..j + |Scheme|] == t[j - n..j - n + |Scheme|];
        assert OccursAt(t, Scheme, j - n);
      }
    }
    assert ReplaceFirst(h, Scheme, "") == h;
    assert h[0] == 'b' && h[|h| - 1] == t[|t| - 1];
    TrimOfTrimmed(h);
  }
}
