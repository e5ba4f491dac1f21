/** The request gate of backend/middleware/authenticate.py: public paths
    pass through untouched; every other request needs an Authorization
    header of the form "Bearer <token>", whose decoded payload is attached
    to the request. Token decoding is library code and is a parameter. */
module Authenticate {
  import opened Common
  import opened Auth

  const PUBLIC_PATHS: set<string> := {"/", "/user/register", "/user/login"}
  const PUBLIC_PREFIXES: seq<string> := ["/docs", "/redoc", "/static"]

  const BEARER_PREFIX := "Bearer "
  const NOT_AUTHENTICATED := "Not authenticated"

  /** The parts of a request the middleware looks at or changes: the URL
      path, the Authorization header if present, and `request.state.user`. */
  datatype Request = Request(path: string, authorization: Option<string>, user: Option<Claims>)

  /** Either the request handed on to `call_next`, or the HTTPException raised. */
  datatype Outcome = CallNext(request: Request) | Reject(error: HttpError)

  // ------------------------------------------------------------ string logic

  /** str.startswith. */
  predicate StartsWith(s: string, prefix: string) {
    |prefix| <= |s| && s[..|prefix|] == prefix
  }

  /** `any(path.startswith(p) for p in prefixes)`. */
  function AnyPrefix(path: string, prefixes: seq<string>): (b: bool)
    ensures b <==> exists i :: 0 <= i < |prefixes| && StartsWith(path, prefixes[i])
  {
    if prefixes == [] then false
    else if StartsWith(path, prefixes[0]) then true
    else
      var rest := AnyPrefix(path, prefixes[1..]);
      assert forall i :: 1 <= i < |prefixes| ==> prefixes[i] == prefixes[1..][i - 1];
      rest
  }

  /** The public-path test of `dispatch`: an exact member of PUBLIC_PATHS,
      or any path beginning with one of PUBLIC_PREFIXES. */
  function IsPublic(path: string): (b: bool)
    ensures b <==> path in PUBLIC_PATHS || StartsWith(path, "/docs") || StartsWith(path, "/redoc") || StartsWith(path, "/static")
  {
    var any := AnyPrefix(path, PUBLIC_PREFIXES);
    assert any <==> StartsWith(path, PUBLIC_PREFIXES[0]) || StartsWith(path, PUBLIC_PREFIXES[1]) || StartsWith(path, PUBLIC_PREFIXES[2]);
    path in PUBLIC_PATHS || any
  }

  /** str.isspace for one character: the ASCII controls \t..\r and \x1c..\x1f,
      the space, and the Unicode space and separator characters. */
  predicate IsSpace(c: char) {
    || c == ' '
    || '\t' <= c <= '\r'
    || '\U{1C}' <= c <= '\U{1F}'
    || c == '\U{85}' || c == '\U{A0}' || c == '\U{1680}'
    || '\U{2000}' <= c <= '\U{200A}'
    || c == '\U{2028}' || c == '\U{2029}' || c == '\U{202F}' || c == '\U{205F}' || c == '\U{3000}'
  }

  predicate AllSpace(s: string) {
    forall i :: 0 <= i < |s| ==> IsSpace(s[i])
  }

  lemma AllSpaceConcat(a: string, b: string)
    requires AllSpace(a) && AllSpace(b)
    ensures AllSpace(a + b)
  {
    forall i | 0 <= i < |a + b|
      ensures IsSpace((a + b)[i])
    {
      if i < |a| {
        assert (a + b)[i] == a[i];
      } else {
        assert (a + b)[i] == b[i - |a|];
      }
    }
  }

  /** The first n + 1 characters of s are its head followed by n characters of its tail. */
  lemma PrefixOfTail(s: string, n: nat)
    requires n < |s|
    ensures s[..n + 1] == [s[0]] + s[1..][..n]
  {
  }

  /** The characters of s from k on are those of its front part from k on, then its last one. */
  lemma SuffixOfFront(s: string, k: nat)
    requires k < |s|
    ensures s[k..] == s[..|s| - 1][k..] + [s[|s| - 1]]
  {
  }

  /** str.lstrip(): drops the leading whitespace and nothing else. */
  function TrimStart(s: string): (r: string)
    ensures |r| <= |s| && r == s[|s| - |r|..]
    ensures AllSpace(s[..|s| - |r|])
    ensures r == [] || !IsSpace(r[0])
  {
    if |s| > 0 && IsSpace(s[0]) then
      var r := TrimStart(s[1..]);
      PrefixOfTail(s, |s[1..]| - |r|);
      AllSpaceConcat([s[0]], s[1..][..|s[1..]| - |r|]);
      r
    else s
  }

  /** str.rstrip(): drops the trailing whitespace and nothing else. */
  function TrimEnd(s: string): (r: string)
    ensures |r| <= |s| && r == s[..|r|]
    ensures AllSpace(s[|r|..])
    ensures r == [] || !IsSpace(r[|r| - 1])
  {
    if |s| > 0 && IsSpace(s[|s| - 1]) then
      var r := TrimEnd(s[..|s| - 1]);
      SuffixOfFront(s, |r|);
      AllSpaceConcat(s[..|s| - 1][|r|..], [s[|s| - 1]]);
      r
    else s
  }

  /** `r` sits at offset `k` of `s` with only whitespace before and after it. */
  predicate SpaceAround(s: string, r: string, k: int) {
    0 <= k <= |s| - |r| && s[k..k + |r|] == r && AllSpace(s[..k]) && AllSpace(s[k + |r|..])
  }

  /** How Strip's two passes fit together: what the first leaves is a
      suffix after whitespace, what the second leaves a prefix before it. */
  lemma TrimmedPasses(s: string, t: string, r: string)
    requires |t| <= |s| && t == s[|s| - |t|..] && AllSpace(s[..|s| - |t|]) && (t == [] || !IsSpace(t[0]))
    requires |r| <= |t| && r == t[..|r|] && AllSpace(t[|r|..]) && (r == [] || !IsSpace(r[|r| - 1]))
    ensures SpaceAround(s, r, |s| - |t|)
    ensures r == [] || (!IsSpace(r[0]) && !IsSpace(r[|r| - 1]))
  {
    var k := |s| - |t|;
    assert s[k..k + |r|] == t[..|r|];
    assert s[k + |r|..] == t[|r|..];
  }

  /** str.strip(): the text between the leading and the trailing whitespace. */
  function Strip(s: string): (r: string)
    ensures r == [] || (!IsSpace(r[0]) && !IsSpace(r[|r| - 1]))
    ensures exists k :: SpaceAround(s, r, k)
  {
    var t := TrimStart(s);
    var r := TrimEnd(t);
    TrimmedPasses(s, t, r);
    r
  }

  /** TrimStart removes exactly a whitespace prefix that is followed by a
      non-space character or by nothing. */
  lemma {:induction false} TrimStartSkipsSpace(a: string, m: string)
    requires AllSpace(a) && (m == [] || !IsSpace(m[0]))
    ensures TrimStart(a + m) == m
    decreases |a|
  {
    if a == [] {
      assert a + m == m;
    } else {
      assert (a + m)[0] == a[0];
      assert (a + m)[1..] == a[1..] + m;
      assert forall i :: 0 <= i < |a[1..]| ==> a[1..][i] == a[i + 1];
      TrimStartSkipsSpace(a[1..], m);
    }
  }

  /** TrimEnd removes exactly a whitespace suffix that follows a non-space
      character or nothing. */
  lemma {:induction false} TrimEndSkipsSpace(m: string, b: string)
    requires AllSpace(b) && (m == [] || !IsSpace(m[|m| - 1]))
    ensures TrimEnd(m + b) == m
    decreases |b|
  {
    if b == [] {
      assert m + b == m;
    } else {
      var front := b[..|b| - 1];
      assert (m + b)[|m + b| - 1] == b[|b| - 1];
      assert (m + b)[..|m + b| - 1] == m + front;
      assert forall i :: 0 <= i < |front| ==> front[i] == b[i];
      TrimEndSkipsSpace(m, front);
    }
  }

  /** Strip is determined by its contract: whitespace around a text that
      neither starts nor ends with whitespace is exactly what it removes. */
  lemma StripSurrounded(a: string, m: string, b: string)
    requires AllSpace(a) && AllSpace(b) && (m == [] || (!IsSpace(m[0]) && !IsSpace(m[|m| - 1])))
    ensures Strip(a + m + b) == m
  {
    if m == [] {
      assert a + m + b == a + b + m;
      AllSpaceConcat(a, b);
      TrimStartSkipsSpace(a + b, m);
    } else {
      assert a + m + b == a + (m + b);
      assert (m + b)[0] == m[0];
      TrimStartSkipsSpace(a, m + b);
      TrimEndSkipsSpace(m, b);
    }
  }

  /** Text without surrounding whitespace is left as it is by Strip. */
  lemma StripTrimmed(s: string)
    requires s == [] || (!IsSpace(s[0]) && !IsSpace(s[|s| - 1]))
    ensures Strip(s) == s
  {
    assert s == [] + s + [];
    StripSurrounded([], s, []);
  }

  /** Stripping twice is stripping once. */
  lemma StripIdempotent(s: string)
    ensures Strip(Strip(s)) == Strip(s)
  {
    StripTrimmed(Strip(s));
  }

  /** The first position of `c` in `s`, if any. */
  function IndexOf(s: string, c: char): (r: Option<nat>)
    ensures r.Some? ==> r.value < |s| && s[r.value] == c && c !in s[..r.value]
    ensures r.None? <==> c !in s
  {
    if s == [] then None
    else if s[0] == c then Some(0)
    else match IndexOf(s[1..], c)
      case None => None
      case Some(i) =>
        assert s[..i + 1] == [s[0]] + s[1..][..i];
        Some(i + 1)
  }

  /** str.split(sep, 1) for a one-character separator: the whole string when
      `sep` does not occur, otherwise the text before and after its first
      occurrence. */
  function SplitOnce(s: string, sep: char): (parts: seq<string>)
    ensures sep !in s ==> parts == [s]
    ensures sep in s ==> |parts| == 2 && s == parts[0] + [sep] + parts[1] && sep !in parts[0]
  {
    match IndexOf(s, sep)
    case None => [s]
    case Some(i) =>
      assert s == s[..i] + [sep] + s[i + 1..];
      [s[..i], s[i + 1..]]
  }

  /** IndexOf finds the first occurrence and no other. */
  lemma IndexOfAt(s: string, c: char, i: nat)
    requires i < |s| && s[i] == c && c !in s[..i]
    ensures IndexOf(s, c) == Some(i)
  {
    assert c in s;
  }

  /** A header beginning with "Bearer " splits into "Bearer" and everything
      after the first space. */
  lemma BearerSplit(h: string)
    requires StartsWith(h, BEARER_PREFIX)
    ensures SplitOnce(h, ' ') == ["Bearer", h[7..]]
  {
    assert h[..7] == BEARER_PREFIX;
    assert h[..6] == h[..7][..6] == "Bearer";
    assert h[6] == h[..7][6] == ' ';
    IndexOfAt(h, ' ', 6);
  }

  // --------------------------------------------------------------- dispatch

  /** The Authorization header is present, non-empty and starts with "Bearer ". */
  predicate HasBearerHeader(req: Request) {
    req.authorization.Some? && req.authorization.value != "" && StartsWith(req.authorization.value, BEARER_PREFIX)
  }

  /** The token `dispatch` hands to the decoder: the text after the first
      space, with surrounding whitespace removed. */
  function BearerToken(h: string): (token: string)
    requires StartsWith(h, BEARER_PREFIX)
    ensures token == Strip(h[7..])
  {
    BearerSplit(h);
    var parts := SplitOnce(h, ' ');
    Strip(parts[1])
  }

  /** AuthenticateMiddleware.dispatch. */
  function Dispatch(req: Request, decode: string -> Result<Claims, HttpError>): (r: Outcome)
    ensures IsPublic(req.path) ==> r == CallNext(req)
    ensures !IsPublic(req.path) && !HasBearerHeader(req) ==>
      r == Reject(HttpError(HTTP_401_UNAUTHORIZED, NOT_AUTHENTICATED))
    ensures !IsPublic(req.path) && HasBearerHeader(req) ==>
      match decode(Strip(req.authorization.value[7..]))
      case Ok(payload) => r == CallNext(req.(user := Some(payload)))
      case Err(e) => r == Reject(e)
  {
    if IsPublic(req.path) then CallNext(req)
    else if !HasBearerHeader(req) then
      Reject(HttpError(HTTP_401_UNAUTHORIZED, NOT_AUTHENTICATED))
    else
      match decode(BearerToken(req.authorization.value))
      case Ok(payload) => CallNext(req.(user := Some(payload)))
      case Err(e) => Reject(e)
  }

  /** On a public path the header and the decoder play no part. */
  lemma PublicIgnoresHeader(req: Request, header: Option<string>, decode: string -> Result<Claims, HttpError>, decode': string -> Result<Claims, HttpError>)
    requires IsPublic(req.path)
    ensures Dispatch(req.(authorization := header), decode') == CallNext(req.(authorization := header))
    ensures Dispatch(req, decode) == CallNext(req)
  {
  }

  /** A text that differs from a prefix at some position of both does not start with it. */
  lemma DiffersAt(s: string, p: string, i: nat)
    requires i < |p| && i < |s| && s[i] != p[i]
    ensures !StartsWith(s, p)
  {
    if |p| <= |s| {
      assert s[..|p|][i] == s[i];
    }
  }

  /** Examples of the public-path test: the three exact paths, and prefix
      matches including "/docsX". */
  lemma PublicPathExamples()
    ensures IsPublic("/") && IsPublic("/user/register") && IsPublic("/user/login")
    ensures IsPublic("/docs") && IsPublic("/docsX") && IsPublic("/redoc/x") && IsPublic("/static/app.js")
  {
    assert "/docsX"[..5] == "/docs";
    assert "/redoc/x"[..6] == "/redoc";
    assert "/static/app.js"[..7] == "/static";
  }

  /** Paths that only resemble public ones are protected: "/user/me",
      "/polls/", "/user/login/" (a trailing slash) and "/doc". */
  lemma ProtectedPathExamples()
    ensures !IsPublic("/user/me") && !IsPublic("/polls/") && !IsPublic("/user/login/") && !IsPublic("/doc")
  {
    DiffersAt("/user/me", "/docs", 1);
    DiffersAt("/user/me", "/redoc", 1);
    DiffersAt("/user/me", "/static", 1);
    DiffersAt("/polls/", "/docs", 1);
    DiffersAt("/polls/", "/redoc", 1);
    DiffersAt("/polls/", "/static", 1);
    DiffersAt("/user/login/", "/docs", 1);
    DiffersAt("/user/login/", "/redoc", 1);
    DiffersAt("/user/login/", "/static", 1);
  }

  /** The scheme test is case sensitive and needs the space: "bearer x" and
      "Bearer" are refused on a protected path. */
  lemma SchemeIsExact(path: string, user: Option<Claims>, decode: string -> Result<Claims, HttpError>)
    requires !IsPublic(path)
    ensures Dispatch(Request(path, Some("bearer x"), user), decode) == Reject(HttpError(HTTP_401_UNAUTHORIZED, NOT_AUTHENTICATED))
    ensures Dispatch(Request(path, Some("Bearer"), user), decode) == Reject(HttpError(HTTP_401_UNAUTHORIZED, NOT_AUTHENTICATED))
  {
    assert "bearer x"[..7][0] != BEARER_PREFIX[0];
  }

  /** Only the whitespace around the token is removed: a header
      "Bearer  abc \t" hands "abc" to the decoder. */
  lemma TokenIsTrimmed()
    ensures BearerToken("Bearer  abc \t") == "abc"
  {
    var h := "Bearer  abc \t";
    assert h[7..] == " " + "abc" + " \t";
    StripSurrounded(" ", "abc", " \t");
  }
}
