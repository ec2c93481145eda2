/** The `authenticate` middleware (middleware/auth.js:4-18): take the bearer
    token from the `Authorization` header, verify it, attach the caller's
    identity to the request and pass control on, or answer 401. */
module Auth {
  import opened Wrappers
  import opened Http

  const Space: char := ' '

  const NoTokenMessage: string := "Authentication failed, no token provided"
  const InvalidTokenMessage: string := "Token is not valid"

  /** The payload of a verified token, as a property-name to value map. */
  type Claims = map<string, string>

  /** `s.split(' ')`: the pieces between single spaces, empty pieces included
      (`"a  b"` has three pieces, the middle one empty). */
  function Split(s: string): (parts: seq<string>)
    ensures |parts| >= 1
    ensures forall k :: 0 <= k < |parts| ==> Space !in parts[k]
  {
    if s == [] then [[]]
    else
      var rest := Split(s[1..]);
      if s[0] == Space then [[]] + rest
      else [[s[0]] + rest[0]] + rest[1..]
  }

  /** `parts.join(' ')`, the inverse of `Split`. */
  function Join(parts: seq<string>): string
    requires |parts| >= 1
  {
    if |parts| == 1 then parts[0] else parts[0] + [Space] + Join(parts[1..])
  }

  /** Splitting then joining gives back the header. */
  lemma {:induction false} JoinSplit(s: string)
    ensures Join(Split(s)) == s
  {
    if s != [] {
      var rest := Split(s[1..]);
      JoinSplit(s[1..]);
      if s[0] != Space && |rest| > 1 {
        assert Split(s)[1..] == rest[1..];
      }
    }
  }

  /** A word without spaces is a single piece. */
  lemma {:induction false} SplitWord(w: string)
    requires Space !in w
    ensures Split(w) == [w]
  {
    if w != [] {
      SplitWord(w[1..]);
      assert [w[0]] + w[1..] == w;
    }
  }

  /** A word without spaces followed by a space is the first piece, and the
      rest splits on its own. */
  lemma {:induction false} SplitAfterWord(w: string, s: string)
    requires Space !in w
    ensures Split(w + [Space] + s) == [w] + Split(s)
  {
    if w == [] {
      assert w + [Space] + s == [Space] + s;
      assert ([Space] + s)[1..] == s;
    } else {
      SplitAfterWord(w[1..], s);
      assert (w + [Space] + s)[1..] == w[1..] + [Space] + s;
      assert [w[0]] + w[1..] == w;
    }
  }

  /** Joining space-free pieces then splitting gives back the pieces, so every
      header is the join of exactly one sequence of pieces. */
  lemma {:induction false} SplitJoin(parts: seq<string>)
    requires |parts| >= 1
    requires forall k :: 0 <= k < |parts| ==> Space !in parts[k]
    ensures Split(Join(parts)) == parts
  {
    if |parts| == 1 {
      SplitWord(parts[0]);
    } else {
      SplitJoin(parts[1..]);
      SplitAfterWord(parts[0], Join(parts[1..]));
      assert [parts[0]] + parts[1..] == parts;
    }
  }

  /** `req.header('Authorization') && req.header('Authorization').split(' ')[1]`
      taken as a token only when truthy: an absent header, a header that is
      the empty string, a header with no space and an empty second piece all
      give no token. */
  function ExtractToken(header: Option<string>): (token: Option<string>)
    ensures token.Some? ==> header.Some? && token.value != [] && Space !in token.value
  {
    match header
    case None => None
    case Some(h) =>
      var parts := Split(h);
      if |parts| >= 2 && parts[1] != [] then Some(parts[1]) else None
  }

  /** The token is exactly the second space-separated piece of the header,
      when there is one and it is not empty. */
  lemma TokenOfPieces(parts: seq<string>)
    requires |parts| >= 1
    requires forall k :: 0 <= k < |parts| ==> Space !in parts[k]
    ensures ExtractToken(Some(Join(parts))) ==
      if |parts| >= 2 && parts[1] != [] then Some(parts[1]) else None
  {
    SplitJoin(parts);
  }

  /** The usual shapes of the header. */
  lemma TokenExamples()
    ensures ExtractToken(Some("Bearer abc")) == Some("abc")
    ensures ExtractToken(Some("Bearer abc def")) == Some("abc")
    ensures ExtractToken(Some("Bearer")) == None
    ensures ExtractToken(Some("Bearer  x")) == None
    ensures ExtractToken(Some("")) == None
    ensures ExtractToken(None) == None
  {
    TokenOfPieces(["Bearer", "abc"]);
    assert Join(["Bearer", "abc"]) == "Bearer abc";
    TokenOfPieces(["Bearer", "abc", "def"]);
    assert Join(["Bearer", "abc", "def"]) == "Bearer abc def";
    TokenOfPieces(["Bearer"]);
    TokenOfPieces(["Bearer", "", "x"]);
    assert Join(["Bearer", "", "x"]) == "Bearer  x";
    TokenOfPieces([""]);
  }

  /** What the middleware decides: pass control on with the identity it
      attaches to the request, or answer with a response of its own. */
  datatype Verdict = Admit(user: Option<string>) | Refuse(response: Response)

  /** `decoded.userId`: absent when the payload has no such property. */
  function UserOf(claims: Claims): (user: Option<string>)
    ensures user.Some? <==> "userId" in claims
    ensures user.Some? ==> user.value == claims["userId"]
  {
    if "userId" in claims then Some(claims["userId"]) else None
  }

  /** The middleware's decision for a header, given the token verifier
      `verify`, which stands for `jwt.verify(token, secret)` at the current
      time: a payload when the signature and expiry check out, `None` where it
      throws. */
  function Decide(header: Option<string>, verify: string -> Option<Claims>): (v: Verdict)
    ensures v.Admit? ==> ExtractToken(header).Some? && verify(ExtractToken(header).value).Some?
    ensures v.Refuse? ==> v.response.Status() == Some(401)
  {
    match ExtractToken(header)
    case None => Refuse(JsonError(401, "message", NoTokenMessage))
    case Some(token) =>
      match verify(token)
      case None => Refuse(JsonError(401, "message", InvalidTokenMessage))
      case Some(claims) => Admit(UserOf(claims))
  }

  /** Control passes on if and only if there is a token and it verifies; the
      identity attached is the payload's `userId`. */
  lemma AdmitIffVerified(header: Option<string>, verify: string -> Option<Claims>)
    ensures Decide(header, verify).Admit? <==>
      ExtractToken(header).Some? && verify(ExtractToken(header).value).Some?
    ensures Decide(header, verify).Admit? ==>
      Decide(header, verify).user == UserOf(verify(ExtractToken(header).value).value)
  {
  }

  /** Both refusals are 401 JSON answers under the `message` property; they
      differ only in the text, which tells a missing token from a bad one. */
  lemma RefusalsDifferOnlyInMessage(header: Option<string>, verify: string -> Option<Claims>)
    requires Decide(header, verify).Refuse?
    ensures var r := Decide(header, verify).response;
      r.JsonError? && r.status == 401 && r.field == "message" &&
      (r.text == NoTokenMessage <==> ExtractToken(header).None?) &&
      (r.text == InvalidTokenMessage <==> ExtractToken(header).Some?)
  {
  }

  /** A verified payload without a `userId` property, such as the
      `{ id, iat, exp }` payload of the tokens issued at signup, admits the
      request with no user attached. */
  lemma SignupTokenAttachesNoUser(header: Option<string>, verify: string -> Option<Claims>)
    requires ExtractToken(header).Some?
    requires verify(ExtractToken(header).value).Some?
    requires "userId" !in verify(ExtractToken(header).value).value
    ensures Decide(header, verify) == Admit(None)
  {
  }

  /** The request object the middleware reads and annotates. */
  class Request {
    /** The `Authorization` header, if the client sent one. */
    const authorization: Option<string>
    /** `req.user`; `None` stands for `undefined`. */
    var user: Option<string>

    constructor(authorization: Option<string>)
      ensures this.authorization == authorization && user == None
    {
      this.authorization := authorization;
      user := None;
    }
  }

  /** `authenticate(req, res, next)`: returns whether `next()` is called
      (exactly once) and otherwise the 401 response sent; on admission it
      sets `req.user`, and on refusal it leaves the request alone. */
  method Authenticate(req: Request, verify: string -> Option<Claims>)
      returns (callsNext: bool, response: Option<Response>)
    modifies req
    ensures Decide(req.authorization, verify).Admit? <==> callsNext
    ensures callsNext ==> response == None && req.user == Decide(req.authorization, verify).user
    ensures !callsNext ==>
      response == Some(Decide(req.authorization, verify).response) && req.user == old(req.user)
  {
    match Decide(req.authorization, verify)
    case Refuse(r) =>
      callsNext, response := false, Some(r);
    case Admit(user) =>
      req.user := user;
      callsNext, response := true, None;
  }
}
