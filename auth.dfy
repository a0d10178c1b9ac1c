/**
 * The authentication middleware and the role guard. `authenticate` reads
 * the bearer token of the `Authorization` header, has it verified, and
 * annotates the request with the token's user id and role; `checkPermission`
 * lets a request through when its role is in the allow-list. Token
 * verification comes in as a function.
 */
module Auth {
  import opened Wrappers
  import opened Text

  const Scheme: string := "Bearer "

  /** The text after the scheme: the header split at every space, second piece. */
  function BearerToken(header: Option<string>): (token: Option<string>)
    ensures token.Some? <==> header.Some? && Scheme <= header.value
    ensures token.Some? ==> |Split(header.value, ' ')| >= 2 && token.value == Split(header.value, ' ')[1]
  {
    if header.None? || !(Scheme <= header.value) then None
    else
      var h := header.value;
      assert h == "Bearer" + [' '] + h[7..];
      SplitAround("Bearer", ' ', h[7..]);
      SplitFree("Bearer", ' ');
      Some(Split(h, ' ')[1])
  }

  /** The token is the word right after the scheme; anything after a further space is ignored. */
  lemma TokenIsFirstWord(word: string, more: string)
    requires ' ' !in word
    ensures BearerToken(Some(Scheme + word)) == Some(word)
    ensures BearerToken(Some(Scheme + word + " " + more)) == Some(word)
  {
    TokenIsFirstPiece(word);
    SplitFree(word, ' ');
    assert Scheme + word + " " + more == Scheme + (word + [' '] + more);
    TokenIsFirstPiece(word + [' '] + more);
    SplitAround(word, ' ', more);
  }

  /** After the scheme, the token is the first space-separated piece of the rest. */
  lemma TokenIsFirstPiece(rest: string)
    ensures BearerToken(Some(Scheme + rest)) == Some(Split(rest, ' ')[0])
  {
    assert Scheme + rest == "Bearer" + [' '] + rest;
    SplitAround("Bearer", ' ', rest);
    SplitFree("Bearer", ' ');
  }

  /** "Bearer a b" yields "a"; the scheme is case-sensitive; "Bearer " alone yields the empty token. */
  lemma BearerExamples()
    ensures BearerToken(Some("Bearer a b")) == Some("a")
    ensures BearerToken(Some("bearer x")).None?
    ensures BearerToken(Some("Bearer ")) == Some("")
    ensures BearerToken(None).None?
  {
    TokenIsFirstWord("a", "b");
    assert "Bearer a b" == Scheme + "a" + " " + "b";
    TokenIsFirstWord("", "");
    assert "Bearer " == Scheme + "";
  }

  /** The incoming request and the two fields `authenticate` writes. */
  class Request {
    var authorization: Option<string>
    var userId: Option<string>
    var role: Option<string>

    constructor (authorization: Option<string>)
      ensures this.authorization == authorization && userId.None? && role.None?
    {
      this.authorization := authorization;
      userId := None;
      role := None;
    }
  }

  /** The decoded payload of a verified token; either claim may be missing. */
  datatype TokenPayload = TokenPayload(id: Option<string>, role: Option<string>)

  datatype AuthOutcome = NotAuthenticated | InvalidToken | Next {
    function Code(): Option<int> {
      match this
      case NotAuthenticated => Some(401)
      case InvalidToken => Some(403)
      case Next => None
    }
  }

  /** `authenticate`; `verify` is `jwt.verify` with the server's secret, None when it throws. */
  method Authenticate(req: Request, verify: string -> Option<TokenPayload>) returns (r: AuthOutcome)
    modifies req
    ensures req.authorization == old(req.authorization)
    ensures r == NotAuthenticated <==> BearerToken(req.authorization).None?
    ensures r == InvalidToken <==>
      BearerToken(req.authorization).Some? && verify(BearerToken(req.authorization).value).None?
    ensures r == Next ==>
      var payload := verify(BearerToken(req.authorization).value).value;
      req.userId == payload.id && req.role == payload.role
    ensures r != Next ==> req.userId == old(req.userId) && req.role == old(req.role)
  {
    var token := BearerToken(req.authorization);
    if token.None? {
      return NotAuthenticated;
    }
    var payload := verify(token.value);
    if payload.None? {
      return InvalidToken;
    }
    req.userId := payload.value.id;
    req.role := payload.value.role;
    r := Next;
  }

  /** `checkPermission(...allowed)` applied to the request's role. */
  predicate Permits(allowed: seq<string>, role: Option<string>) {
    Truthy(role) && role.value in allowed
  }

  datatype Guard = Forbidden | Proceed

  /** The guard's decision, which reads nothing of the request but its role. */
  function CheckPermission(allowed: seq<string>, req: Request): (g: Guard)
    reads req
    ensures g == Proceed <==> req.role.Some? && req.role.value != "" && req.role.value in allowed
  {
    if Permits(allowed, req.role) then Proceed else Forbidden
  }

  /** An empty allow-list rejects everyone, and a request without a role is always rejected. */
  lemma GuardRejects(allowed: seq<string>, req: Request)
    ensures CheckPermission([], req) == Forbidden
    ensures req.role.None? || req.role == Some("") ==> CheckPermission(allowed, req) == Forbidden
  {
  }

  /** After authentication, an admin-only route admits exactly the tokens whose role claim is "admin". */
  method AdminRoute(req: Request, verify: string -> Option<TokenPayload>) returns (admitted: bool)
    modifies req
    ensures admitted <==>
      BearerToken(req.authorization).Some? &&
      verify(BearerToken(req.authorization).value).Some? &&
      verify(BearerToken(req.authorization).value).value.role == Some("admin")
  {
    var r := Authenticate(req, verify);
    if r != Next {
      return false;
    }
    admitted := CheckPermission(["admin"], req) == Proceed;
  }
}
