/**
 * The request-authorization gate of the API: app/middlewares/auth.py.
 *
 * The middleware is modelled as a pure decision over the request path, the
 * value of the Authorization header (absent or present) and the configured
 * development token. Forwarding to the next handler becomes an outcome value.
 */
module AuthGate {
  import opened Wrappers

  // ---------------------------------------------------------------------
  // String helpers with Python's meaning
  // ---------------------------------------------------------------------

  /** The characters for which Python's str.isspace() holds. */
  const Whitespace: set<char> := {
    '\t', '\n', '\U{000B}', '\U{000C}', '\r',
    '\U{001C}', '\U{001D}', '\U{001E}', '\U{001F}', ' ',
    '\U{0085}', '\U{00A0}', '\U{1680}',
    '\U{2000}', '\U{2001}', '\U{2002}', '\U{2003}', '\U{2004}', '\U{2005}',
    '\U{2006}', '\U{2007}', '\U{2008}', '\U{2009}', '\U{200A}',
    '\U{2028}', '\U{2029}', '\U{202F}', '\U{205F}', '\U{3000}'
  }

  /** The characters str.strip() removes. */
  predicate IsSpace(c: char) {
    c in Whitespace
  }

  /** The number of whitespace characters s starts with. */
  function LeadingSpaces(s: string): (n: nat)
    ensures n <= |s|
    ensures forall k :: 0 <= k < n ==> IsSpace(s[k])
    ensures n < |s| ==> !IsSpace(s[n])
  {
    if s != [] && IsSpace(s[0]) then 1 + LeadingSpaces(s[1..]) else 0
  }

  /** The number of whitespace characters s ends with. */
  function TrailingSpaces(s: string): (n: nat)
    ensures n <= |s|
    ensures forall k :: |s| - n <= k < |s| ==> IsSpace(s[k])
    ensures n < |s| ==> !IsSpace(s[|s| - n - 1])
  {
    if s != [] && IsSpace(s[|s| - 1]) then 1 + TrailingSpaces(s[..|s| - 1]) else 0
  }

  /** Python's str.strip() with no argument. */
  function Strip(s: string): (r: string)
    ensures r == [] || (!IsSpace(r[0]) && !IsSpace(r[|r| - 1]))
    ensures r == [] <==> forall i :: 0 <= i < |s| ==> IsSpace(s[i])
  {
    var t := s[LeadingSpaces(s)..];
    t[..|t| - TrailingSpaces(t)]
  }

  /**
   * Strip keeps exactly the stretch between the first and the last
   * non-whitespace character: whatever lies outside s[i..j] is whitespace and
   * s[i..j] starts and ends with a non-whitespace character.
   */
  lemma StripIsInnerSlice(s: string, i: nat, j: nat)
    requires i < j <= |s|
    requires forall k :: 0 <= k < i ==> IsSpace(s[k])
    requires forall k :: j <= k < |s| ==> IsSpace(s[k])
    requires !IsSpace(s[i]) && !IsSpace(s[j - 1])
    ensures Strip(s) == s[i..j]
  {
    var n := LeadingSpaces(s);
    assert n <= i;
    assert n == i;
    var t := s[i..];
    var m := TrailingSpaces(t);
    assert t[j - i - 1] == s[j - 1];
    assert m <= |t| - (j - i);
    assert t[|t| - m - 1] == s[|s| - m - 1];
    assert m == |t| - (j - i);
    assert t[..j - i] == s[i..j];
  }

  /** A string with no surrounding whitespace is its own strip. */
  lemma StripOfStripped(s: string)
    requires s == [] || (!IsSpace(s[0]) && !IsSpace(s[|s| - 1]))
    ensures Strip(s) == s
  {
    if s != [] {
      StripIsInnerSlice(s, 0, |s|);
    }
  }

  /** Whitespace around a string without surrounding whitespace is all strip removes. */
  lemma StripPadded(pre: string, t: string, post: string)
    requires forall k :: 0 <= k < |pre| ==> IsSpace(pre[k])
    requires forall k :: 0 <= k < |post| ==> IsSpace(post[k])
    requires t != [] && !IsSpace(t[0]) && !IsSpace(t[|t| - 1])
    ensures Strip(pre + t + post) == t
  {
    var s := pre + t + post;
    forall k | 0 <= k < |pre| ensures IsSpace(s[k]) {
      assert s[k] == pre[k];
    }
    forall k | |pre| + |t| <= k < |s| ensures IsSpace(s[k]) {
      assert s[k] == post[k - |pre| - |t|];
    }
    StripIsInnerSlice(s, |pre|, |pre| + |t|);
    assert s[|pre|..|pre| + |t|] == t;
  }

  /** ASCII case folding of one character. */
  function AsciiLower(c: char): (d: char)
    ensures 'A' <= c <= 'Z' ==> 'a' <= d <= 'z'
    ensures !('A' <= c <= 'Z') ==> d == c
  {
    if 'A' <= c <= 'Z' then (c as int + 32) as char else c
  }

  /** str.lower(), restricted to ASCII letters. */
  function Lower(s: string): (r: string)
    ensures |r| == |s|
    ensures forall i :: 0 <= i < |s| ==> r[i] == AsciiLower(s[i])
  {
    seq(|s|, i requires 0 <= i < |s| => AsciiLower(s[i]))
  }

  /** The position of the first occurrence of c in s, if any. */
  function FirstIndex(s: string, c: char): (r: Option<nat>)
    ensures r.None? <==> c !in s
    ensures r.Some? ==> r.value < |s| && s[r.value] == c
    ensures r.Some? ==> forall j :: 0 <= j < r.value ==> s[j] != c
  {
    if s == [] then None
    else if s[0] == c then Some(0)
    else match FirstIndex(s[1..], c)
      case None => None
      case Some(i) => Some(i + 1)
  }

  /** Python's s.split(sep, 1) for a one-character separator. */
  function SplitOnce(s: string, sep: char): (parts: seq<string>)
    ensures |parts| == 1 || |parts| == 2
    ensures |parts| == 1 <==> sep !in s
    ensures |parts| == 1 ==> parts[0] == s
    ensures |parts| == 2 ==> (forall j :: 0 <= j < |parts[0]| ==> parts[0][j] != sep)
    ensures |parts| == 2 ==> parts[0] + [sep] + parts[1] == s
  {
    match FirstIndex(s, sep)
    case None => [s]
    case Some(i) =>
      assert s[..i] + [sep] + s[i + 1..] == s;
      [s[..i], s[i + 1..]]
  }

  // ---------------------------------------------------------------------
  // _get_bearer_token
  // ---------------------------------------------------------------------

  /**
   * The bearer token of a request, from its Authorization header (None when
   * the header is absent). The header is split at its first space only; the
   * scheme must be "bearer" in any case and the token is the rest, stripped.
   */
  function BearerToken(authorization: Option<string>): (r: Option<string>)
    ensures authorization == None || authorization == Some("") ==> r == None
    ensures authorization.Some? && ' ' !in authorization.value ==> r == None
    ensures r.Some? ==> r.value != "" && !IsSpace(r.value[0]) && !IsSpace(r.value[|r.value| - 1])
  {
    var auth := if authorization.Some? then authorization.value else "";
    if auth == "" then None
    else
      var parts := SplitOnce(auth, ' ');
      if |parts| != 2 then None
      else
        var scheme, token := parts[0], Strip(parts[1]);
        if Lower(scheme) != "bearer" || token == "" then None
        else Some(token)
  }

  /** The first occurrence is the only one with no earlier occurrence. */
  lemma FirstIndexUnique(s: string, c: char, k: nat)
    requires k < |s| && s[k] == c
    requires forall j :: 0 <= j < k ==> s[j] != c
    ensures FirstIndex(s, c) == Some(k)
  {
  }

  /** A header starting with "bearer" in any case and a space splits there. */
  lemma SplitAfterScheme(h: string)
    requires |h| > 6 && Lower(h[..6]) == "bearer" && h[6] == ' '
    ensures SplitOnce(h, ' ') == [h[..6], h[7..]]
  {
    forall k | 0 <= k < 6 ensures h[k] != ' ' {
      assert AsciiLower(h[k]) == "bearer"[k];
    }
    FirstIndexUnique(h, ' ', 6);
  }

  /** A header that yields a token splits after a six-letter "bearer". */
  lemma BearerTokenSplitsAtSix(h: string)
    requires BearerToken(Some(h)).Some?
    ensures |h| > 6 && Lower(h[..6]) == "bearer" && h[6] == ' '
    ensures BearerToken(Some(h)).value == Strip(h[7..])
  {
    var parts := SplitOnce(h, ' ');
    var i := |parts[0]|;
    assert h[..i] == parts[0] && h[i] == ' ' && h[i + 1..] == parts[1];
    assert |Lower(parts[0])| == |"bearer"|;
  }

  /**
   * A header yields token t exactly when it is six characters spelling
   * "bearer" in any case, one space, and a rest whose strip is the non-empty t.
   */
  lemma BearerTokenShape(h: string, t: string)
    ensures BearerToken(Some(h)) == Some(t)
        <==> |h| > 6 && Lower(h[..6]) == "bearer" && h[6] == ' ' && t == Strip(h[7..]) && t != ""
  {
    if BearerToken(Some(h)).Some? {
      BearerTokenSplitsAtSix(h);
    }
    if |h| > 6 && Lower(h[..6]) == "bearer" && h[6] == ' ' {
      SplitAfterScheme(h);
    }
  }

  /**
   * Round trip: "Bearer " followed by a token gives that token back exactly
   * when the token is non-empty and has no surrounding whitespace.
   */
  lemma BearerTokenRoundTrip(t: string)
    ensures BearerToken(Some("Bearer " + t)) == Some(t)
        <==> t != "" && !IsSpace(t[0]) && !IsSpace(t[|t| - 1])
  {
    var h := "Bearer " + t;
    assert h[..6] == "Bearer" && h[6] == ' ' && h[7..] == t;
    assert Lower("Bearer") == "bearer";
    BearerTokenShape(h, t);
    if t != "" && !IsSpace(t[0]) && !IsSpace(t[|t| - 1]) {
      StripOfStripped(t);
    }
  }

  /** Only the first space splits: "Bearer a b" carries the token "a b". */
  lemma InnerSpacesKept()
    ensures BearerToken(Some("Bearer a b")) == Some("a b")
  {
    var h := "Bearer a b";
    assert h[..6] == "Bearer" && h[6] == ' ' && h[7..] == "a b";
    assert Lower("Bearer") == "bearer";
    StripOfStripped("a b");
    BearerTokenShape(h, "a b");
  }

  /** The scheme is matched in any case and the token is stripped. */
  lemma SchemeCaseAndPadding()
    ensures BearerToken(Some("bEaReR   tok  ")) == Some("tok")
  {
    var h := "bEaReR   tok  ";
    assert |h| > 6 && h[6] == ' ';
    assert Lower(h[..6]) == "bearer" by {
      assert h[..6] == "bEaReR";
    }
    assert Strip(h[7..]) == "tok" by {
      assert h[7..] == "  " + "tok" + "  ";
      StripPadded("  ", "tok", "  ");
    }
    BearerTokenShape(h, "tok");
  }

  /** A blank token, a tab after the scheme and another scheme give no token. */
  lemma MalformedHeaders()
    ensures BearerToken(Some("Bearer   ")) == None
    ensures BearerToken(Some("Bearer\ttok")) == None
    ensures BearerToken(Some("Basic tok")) == None
  {
    var blank := "Bearer   ";
    assert blank[7..] == "  ";
    assert Strip("  ") == "";
    var basic := "Basic tok";
    assert Lower(basic[..6])[5] == ' ';
    if BearerToken(Some(blank)).Some? {
      BearerTokenSplitsAtSix(blank);
    }
    if BearerToken(Some(basic)).Some? {
      BearerTokenSplitsAtSix(basic);
    }
  }

  // ---------------------------------------------------------------------
  // ApiV1AuthMiddleware.dispatch
  // ---------------------------------------------------------------------

  const ApiPrefix: string := "/api/v1"

  /** The allowlist PUBLIC_PATHS. */
  const PublicPaths: set<string> := {
    "/api/v1/ping",
    "/api/v1/token",
    "/api/v1/openapi.json",
    "/docs",
    "/redoc",
    "/api/v1/error-logs/mediamtx",
    "/api/v1/error-logs/mediamtx/latest"
  }

  const UnauthorizedStatus: int := 401

  /** The outcome of the gate for one request. */
  datatype Outcome =
    | OutsideApi      // path does not start with the API prefix: forwarded
    | Allowlisted     // path is in PublicPaths: forwarded
    | MissingToken    // no usable bearer token: 401
    | InvalidToken    // token differs from the configured one: 401
    | ValidToken      // token equals the configured one: forwarded
  {
    /** The request reaches the next handler. */
    predicate Forwards() {
      OutsideApi? || Allowlisted? || ValidToken?
    }

    /** The JSON body {"detail": ...} of a rejection. */
    function Detail(): (d: string)
      requires !Forwards()
      ensures d != ""
    {
      if MissingToken? then "Missing Authorization Bearer token" else "Invalid token"
    }

    /** The JSONResponse returned in place of the next handler's: status and detail. */
    function Response(): (r: Option<(int, string)>)
      ensures r.None? <==> Forwards()
      ensures r.Some? ==> r.value.0 == UnauthorizedStatus && r.value.1 != ""
    {
      if Forwards() then None else Some((UnauthorizedStatus, Detail()))
    }
  }

  predicate StartsWith(s: string, prefix: string) {
    |prefix| <= |s| && s[..|prefix|] == prefix
  }

  /** The path is subject to the gate. */
  predicate Protected(path: string) {
    StartsWith(path, ApiPrefix) && path !in PublicPaths
  }

  /** The configured development token accepts t. */
  predicate Accepts(devToken: Option<string>, t: string) {
    devToken.Some? && devToken.value != "" && t == devToken.value
  }

  /**
   * The decision of dispatch for a request with this path and Authorization
   * header, given the configured development token (None when unset).
   */
  function Dispatch(path: string, authorization: Option<string>, devToken: Option<string>): (o: Outcome)
    ensures !StartsWith(path, ApiPrefix) ==> o == OutsideApi
    ensures StartsWith(path, ApiPrefix) && path in PublicPaths ==> o == Allowlisted
    ensures Protected(path) && BearerToken(authorization) == None ==> o == MissingToken
    ensures Protected(path) && BearerToken(authorization).Some? ==>
      (o == ValidToken <==> Accepts(devToken, BearerToken(authorization).value))
      && (o == ValidToken || o == InvalidToken)
  {
    if !StartsWith(path, ApiPrefix) then OutsideApi
    else if path in PublicPaths then Allowlisted
    else
      var token := BearerToken(authorization);
      if token == None then MissingToken
      else
        var devJwt := if devToken.Some? then devToken.value else "";
        if devJwt != "" && token.value == devJwt then ValidToken
        else InvalidToken
  }

  /**
   * A request is forwarded exactly when its path is not protected or it
   * carries a bearer token equal to a non-empty configured token.
   */
  lemma ForwardsIff(path: string, authorization: Option<string>, devToken: Option<string>)
    ensures Dispatch(path, authorization, devToken).Forwards()
        <==> !Protected(path)
             || (BearerToken(authorization).Some? && Accepts(devToken, BearerToken(authorization).value))
  {
  }

  /** On a protected path the two rejections are 401s carrying their own detail. */
  lemma RejectionResponses(path: string, authorization: Option<string>, devToken: Option<string>)
    requires Protected(path)
    ensures BearerToken(authorization) == None ==>
      Dispatch(path, authorization, devToken).Response() == Some((401, "Missing Authorization Bearer token"))
    ensures BearerToken(authorization).Some? && !Accepts(devToken, BearerToken(authorization).value) ==>
      Dispatch(path, authorization, devToken).Response() == Some((401, "Invalid token"))
  {
  }

  /** With no usable token configured, no protected path is ever forwarded. */
  lemma UnsetTokenLocksProtectedPaths(path: string, authorization: Option<string>, devToken: Option<string>)
    requires devToken == None || devToken == Some("")
    requires Protected(path)
    ensures !Dispatch(path, authorization, devToken).Forwards()
  {
  }

  /**
   * A configured token with surrounding whitespace can never be presented,
   * since the extracted token is stripped: every protected path is locked.
   */
  lemma PaddedTokenLocksProtectedPaths(path: string, authorization: Option<string>, d: string)
    requires d != "" && (IsSpace(d[0]) || IsSpace(d[|d| - 1]))
    requires Protected(path)
    ensures Dispatch(path, authorization, Some(d)) == MissingToken
         || Dispatch(path, authorization, Some(d)) == InvalidToken
  {
  }

  /** Presenting "Bearer <token>" for a usable configured token passes every path. */
  lemma ConfiguredTokenPasses(path: string, d: string)
    requires d != "" && !IsSpace(d[0]) && !IsSpace(d[|d| - 1])
    ensures Dispatch(path, Some("Bearer " + d), Some(d)).Forwards()
  {
    BearerTokenRoundTrip(d);
  }

  /** Outside the API prefix and on the allowlist, headers do not matter. */
  lemma UnprotectedIgnoresHeaders(path: string, a1: Option<string>, a2: Option<string>, devToken: Option<string>)
    requires !Protected(path)
    ensures Dispatch(path, a1, devToken).Forwards()
    ensures Dispatch(path, a1, devToken) == Dispatch(path, a2, devToken)
  {
  }

  /**
   * The prefix test is textual: "/api/v1x" is protected, and so is a public
   * path with a trailing slash, while "/docs" passes as outside the prefix.
   */
  lemma PrefixQuirks()
    ensures Dispatch("/api/v1x", None, Some("t")) == MissingToken
    ensures Dispatch("/api/v1/ping/", None, Some("t")) == MissingToken
    ensures Dispatch("/api/v1/ping", None, None) == Allowlisted
    ensures Dispatch("/docs", None, None) == OutsideApi
  {
    assert "/api/v1x"[..7] == ApiPrefix;
    assert "/api/v1/ping/"[..7] == ApiPrefix;
    assert "/api/v1/ping"[..7] == ApiPrefix;
  }
}
