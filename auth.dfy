/** The `requireAuth` middleware of the API: it takes the bearer token from the
    `Authorization` header, has the identity service check it, and either
    answers 401 or attaches the user, the token and a client that sends the
    token, and passes the request on. */
module Auth {
  import opened Wrappers
  import opened Strings

  const NoToken: string := "Unauthorized - No token provided"
  const InvalidToken: string := "Unauthorized - Invalid token"
  const AuthFailed: string := "Unauthorized - Authentication failed"

  const Unauthorized401: nat := 401

  const Prefix: string := "Bearer "

  /** The user the identity service returns for a valid token. */
  datatype User = User(id: string)

  /** What asking the identity service about a token gives: a user; an error or
      no user; or an exception. */
  datatype Verification = Verified(user: User) | Rejected | Threw

  /** A database client: it sends the given `Authorization` header, or none for
      the anonymous client. */
  datatype Client = Client(authorization: Option<string>)

  const Anonymous: Client := Client(None)

  /** The client created for a token: it sends `Bearer <token>`. */
  function ClientFor(token: string): Client
  {
    Client(Some(Prefix + token))
  }

  predicate StartsWith(s: string, prefix: string)
  {
    |prefix| <= |s| && s[..|prefix|] == prefix
  }

  /** A field followed by the separator splits off as the first field. */
  lemma {:induction false} SplitAfterField(w: string, sep: char, rest: string)
    requires sep !in w
    ensures Split(w + [sep] + rest, sep) == [w] + Split(rest, sep)
    decreases |w|
  {
    var s := w + [sep] + rest;
    if w == [] {
      assert s == [sep] + rest;
      assert s[1..] == rest;
    } else {
      assert s[1..] == w[1..] + [sep] + rest;
      assert sep !in w[1..] by {
        assert forall j :: 0 <= j < |w[1..]| ==> w[1..][j] == w[j + 1];
      }
      SplitAfterField(w[1..], sep, rest);
      assert [w[0]] + w[1..] == w;
    }
  }

  /** The header as `"Bearer" + " " + rest`, when it has the prefix. */
  lemma PrefixSplit(header: string)
    requires StartsWith(header, Prefix)
    ensures Split(header, ' ') == ["Bearer"] + Split(header[|Prefix|..], ' ')
  {
    assert header == "Bearer" + [' '] + header[|Prefix|..];
    SplitAfterField("Bearer", ' ', header[|Prefix|..]);
  }

  /** `authHeader.split(' ')[1]` for a header that is present and starts with
      the exact prefix `Bearer ` (no token otherwise). The split always has a
      second field there, so the token is defined, though it may be empty. */
  function BearerToken(header: Option<string>): (token: Option<string>)
    ensures token.Some? <==> header.Some? && StartsWith(header.value, Prefix)
    ensures token.Some? ==> ' ' !in token.value
  {
    if header.Some? && StartsWith(header.value, Prefix) then
      PrefixSplit(header.value);
      Some(Split(header.value, ' ')[1])
    else None
  }

  /** The token is the text after the prefix up to the next space (or the end),
      and the header starts with the prefix followed by the token. */
  lemma BearerTokenIsFirstWord(header: string)
    requires StartsWith(header, Prefix)
    ensures var rest := header[|Prefix|..];
            BearerToken(Some(header)) == Some(rest[..IndexOfOrEnd(rest, ' ')])
    ensures StartsWith(header, Prefix + BearerToken(Some(header)).value)
  {
    var rest := header[|Prefix|..];
    PrefixSplit(header);
    SplitFirstField(rest, ' ');
    var token := rest[..IndexOfOrEnd(rest, ' ')];
    assert header == Prefix + rest;
    assert header[..|Prefix + token|] == Prefix + token;
  }

  /** "Bearer a b" carries the token "a", the second space-separated field. */
  lemma SecondFieldExample()
    ensures BearerToken(Some("Bearer a b")) == Some("a")
  {
    var rest := "a b";
    assert "Bearer a b"[|Prefix|..] == rest;
    assert rest[1] == ' ';
    assert IndexOfOrEnd(rest, ' ') == 1;
    assert rest[..1] == "a";
    BearerTokenIsFirstWord("Bearer a b");
  }

  /** The prefix is matched exactly: "bearer a" and "Bearer" carry no token,
      while "Bearer " carries the empty one. */
  lemma ExactPrefixExamples()
    ensures BearerToken(Some("bearer a")) == None
    ensures BearerToken(Some("Bearer")) == None
    ensures BearerToken(Some("Bearer ")) == Some("")
    ensures BearerToken(None) == None
  {
    assert "bearer a"[0] != Prefix[0];
    BearerTokenIsFirstWord("Bearer ");
  }

  /** The header the attached client sends gives the same token back. */
  lemma ClientHeaderRoundTrip(token: string)
    requires ' ' !in token
    ensures BearerToken(ClientFor(token).authorization) == Some(token)
  {
    var header := Prefix + token;
    assert header[..|Prefix|] == Prefix;
    BearerTokenIsFirstWord(header);
    assert header[|Prefix|..] == token;
    assert IndexOfOrEnd(token, ' ') == |token|;
    assert token[..|token|] == token;
  }

  /** What the middleware decides for a request. */
  datatype Decision = Authenticated(user: User, token: string) | Unauthorized(error: string)

  /** The three 401s and the one way through: no usable header; a token the
      service rejects; the service throwing; otherwise the user it returned. */
  function Authenticate(header: Option<string>, verify: string -> Verification): (d: Decision)
    ensures d == Unauthorized(NoToken) <==> BearerToken(header).None?
    ensures d == Unauthorized(InvalidToken)
            <==> BearerToken(header).Some? && verify(BearerToken(header).value).Rejected?
    ensures d == Unauthorized(AuthFailed)
            <==> BearerToken(header).Some? && verify(BearerToken(header).value).Threw?
    ensures d.Authenticated? <==> BearerToken(header).Some? && verify(BearerToken(header).value).Verified?
    ensures d.Authenticated? ==> d.token == BearerToken(header).value && verify(d.token) == Verified(d.user)
  {
    match BearerToken(header)
    case None => Unauthorized(NoToken)
    case Some(token) =>
      match verify(token)
      case Verified(user) => Authenticated(user, token)
      case Rejected => Unauthorized(InvalidToken)
      case Threw => Unauthorized(AuthFailed)
  }

  /** Without a usable header the service is never asked: whatever it would
      say, the answer is the same 401. */
  lemma NoTokenNeverVerifies(header: Option<string>, verify1: string -> Verification, verify2: string -> Verification)
    requires header.None? || !StartsWith(header.value, Prefix)
    ensures Authenticate(header, verify1) == Authenticate(header, verify2) == Unauthorized(NoToken)
  {
  }

  /** An authenticated request's header is `Bearer `, the token, then a space or the end. */
  lemma AuthenticatedHeader(header: Option<string>, verify: string -> Verification)
    requires Authenticate(header, verify).Authenticated?
    ensures var prefixed := Prefix + Authenticate(header, verify).token;
            && header.Some? && StartsWith(header.value, prefixed)
            && (|prefixed| == |header.value| || header.value[|prefixed|] == ' ')
  {
    var h := header.value;
    var rest := h[|Prefix|..];
    BearerTokenIsFirstWord(h);
    var k := IndexOfOrEnd(rest, ' ');
    assert |Prefix + rest[..k]| == |Prefix| + k;
    assert |Prefix| + k < |h| ==> h[|Prefix| + k] == rest[k];
  }

  /** How the middleware finishes: `next()`, or a JSON error with a status. */
  datatype Outcome = Next | Respond(status: nat, error: string)

  /** The request fields the middleware reads and writes. */
  class Request {
    const authorization: Option<string>
    var user: Option<User>
    var accessToken: Option<string>
    var supabaseClient: Option<Client>

    constructor (authorization: Option<string>)
      ensures this.authorization == authorization
      ensures user.None? && accessToken.None? && supabaseClient.None?
    {
      this.authorization := authorization;
      user := None;
      accessToken := None;
      supabaseClient := None;
    }

    /** `requireAuth`: the request goes on only when the token was verified, and
        then carries the user, the token and a client sending the token; a
        refused request is answered 401 with the decision's message and keeps
        its fields. */
    method RequireAuth(verify: string -> Verification) returns (outcome: Outcome)
      modifies this
      ensures outcome.Next? <==> Authenticate(authorization, verify).Authenticated?
      ensures outcome.Next? ==>
        var d := Authenticate(authorization, verify);
        && user == Some(d.user) && accessToken == Some(d.token)
        && supabaseClient == Some(ClientFor(d.token))
      ensures outcome.Respond? ==>
        && outcome == Respond(Unauthorized401, Authenticate(authorization, verify).error)
        && unchanged(this)
    {
      var token := BearerToken(authorization);
      if token.None? {
        return Respond(Unauthorized401, NoToken);
      }
      var answer := verify(token.value);
      match answer {
        case Rejected =>
          return Respond(Unauthorized401, InvalidToken);
        case Threw =>
          return Respond(Unauthorized401, AuthFailed);
        case Verified(u) =>
          user := Some(u);
          accessToken := Some(token.value);
          supabaseClient := Some(ClientFor(token.value));
          return Next;
      }
    }
  }
}
