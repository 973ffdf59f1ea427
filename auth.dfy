/** The `authenticateToken` middleware of auth.js: take the token from the
    Authorization header, verify it, load its user, and either answer 401 or
    hand the request on with `req.user` set. */
module Auth {
  import opened Common
  import opened Text
  import opened Schema
  import Handlers

  const NoTokenMessage := "Token no proporcionado"
  const BadTokenMessage := "Token no valido o expirado"
  const NoUserMessage := "Usuario no valido o eliminado"

  /** What the middleware does with a request: exactly one of a single response or
      a single call to `next`. */
  datatype Outcome = Respond(status: int, message: string) | Next(user: User)

  /** `authHeader && authHeader.split(' ')[1]` followed by the truthiness test: the
      second field of the header split on single spaces, when it is non-empty. The
      word before the first space is never looked at. */
  function TokenOf(header: Option<string>): (token: Option<string>)
    ensures header.None? ==> token.None?
    ensures header.Some? && ' ' !in header.value ==> token.None?
    ensures token.Some? ==> token.value != [] && ' ' !in token.value
  {
    match header
    case None => None
    case Some(h) =>
      var fields := Split(h, ' ');
      assert |fields| >= 2 ==> h == fields[0] + [' '] + Join(fields[1..], ' ');
      assert |fields| >= 2 ==> h[|fields[0]|] == ' ';
      if |fields| < 2 || fields[1] == [] then None else Some(fields[1])
  }

  /** Whatever word comes first, the token is the text between the first space and
      the next space (or the end); an empty one counts as missing. */
  lemma TokenIsSecondField(scheme: string, token: string, rest: string)
    requires ' ' !in scheme && ' ' !in token
    requires rest == [] || rest[0] == ' '
    ensures TokenOf(Some(scheme + [' '] + token + rest)) == if token == [] then None else Some(token)
  {
    assert scheme + [' '] + token + rest == scheme + [' '] + (token + rest);
    SplitAfterFirst(scheme, token + rest, ' ');
    if rest == [] {
      assert token + rest == token;
      SplitWithoutSeparator(token, ' ');
    } else {
      assert token + rest == token + [' '] + rest[1..];
      SplitAfterFirst(token, rest[1..], ' ');
    }
  }

  /** The middleware's decision: 401 "no token" before any verification, 401 "invalid
      or expired" when verification fails (or throws), 401 "invalid or deleted user"
      when no user has the verified id, otherwise `next` with that user. */
  function Decide(header: Option<string>, users: map<int, User>, verify: string -> Option<Claims>): (r: Outcome)
    ensures r.Respond? ==> r.status == StatusUnauthorized
    ensures TokenOf(header).None? <==> r == Respond(StatusUnauthorized, NoTokenMessage)
    ensures r == Respond(StatusUnauthorized, BadTokenMessage) <==>
      TokenOf(header).Some? && verify(TokenOf(header).value).None?
    ensures r == Respond(StatusUnauthorized, NoUserMessage) <==>
      TokenOf(header).Some? && verify(TokenOf(header).value).Some? && verify(TokenOf(header).value).value.id !in users
    ensures r.Next? <==>
      TokenOf(header).Some? && verify(TokenOf(header).value).Some? && verify(TokenOf(header).value).value.id in users
    ensures r.Next? ==> r.user == users[verify(TokenOf(header).value).value.id]
  {
    match TokenOf(header)
    case None => Respond(StatusUnauthorized, NoTokenMessage)
    case Some(token) =>
      match verify(token)
      case None => Respond(StatusUnauthorized, BadTokenMessage)
      case Some(claims) =>
        if claims.id in users then Next(users[claims.id]) else Respond(StatusUnauthorized, NoUserMessage)
  }

  /** A token issued at login for a stored user, sent after any scheme word, lets the
      request through as that user, provided verification returns the signed claims. */
  lemma LoginTokenAuthenticates(users: map<int, User>, id: int, scheme: string,
                                sign: Claims -> string, verify: string -> Option<Claims>)
    requires id in users && ' ' !in scheme
    requires sign(Claims(id, users[id].email)) != [] && ' ' !in sign(Claims(id, users[id].email))
    requires verify(sign(Claims(id, users[id].email))) == Some(Claims(id, users[id].email))
    ensures Decide(Some(scheme + " " + sign(Claims(id, users[id].email))), users, verify) == Next(users[id])
  {
    var token := sign(Claims(id, users[id].email));
    TokenIsSecondField(scheme, token, []);
    assert scheme + " " + token == scheme + [' '] + token + [];
  }

  /** The parts of an Express request the middleware reads and writes. */
  class Request {
    var authorization: Option<string>
    var user: Option<User>

    constructor (authorization: Option<string>)
      ensures this.authorization == authorization && user == None
    {
      this.authorization := authorization;
      user := None;
    }
  }

  /** `authenticateToken(req, res, next)`: on `Next` the request's user is the stored
      user with the verified id; on a response `req.user` is untouched. The store is
      only read. */
  method AuthenticateToken(req: Request, store: Handlers.Store, verify: string -> Option<Claims>)
    returns (outcome: Outcome)
    modifies req
    ensures outcome == Decide(req.authorization, store.users, verify)
    ensures outcome.Next? ==> req.user == Some(outcome.user)
    ensures outcome.Respond? ==> req.user == old(req.user)
    ensures req.authorization == old(req.authorization)
  {
    var token := TokenOf(req.authorization);
    if token.None? {
      return Respond(StatusUnauthorized, NoTokenMessage);
    }
    var decoded := verify(token.value);
    if decoded.None? {
      return Respond(StatusUnauthorized, BadTokenMessage);
    }
    if decoded.value.id !in store.users {
      return Respond(StatusUnauthorized, NoUserMessage);
    }
    var user := store.users[decoded.value.id];
    req.user := Some(user);
    return Next(user);
  }
}
