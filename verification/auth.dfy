/** `jwtParse`: the middleware that turns the bearer token of a request into
    the Auth0 id and the user id the handlers after it read. The token's
    signature is checked by `jwtCheck` before it, which is not part of this
    model; decoding is the partial function `decode`, which gives the
    token's `sub` claim or fails. */
module Auth {
  import opened Wrappers
  import opened Http
  import opened JsString
  import opened Database

  const Scheme: string := "Bearer "

  /** The token of an `Authorization` header: the piece after the first
      space, once the header is known to start with "Bearer " (case and
      trailing space included). No header, or another scheme, gives none. */
  function BearerToken(authorization: Option<string>): (token: Option<string>)
    ensures token.Some? <==> authorization.Some? && StartsWith(authorization.value, Scheme)
    ensures token.Some? ==> token.value == Before(authorization.value[|Scheme|..], ' ')
  {
    if authorization.None? || !StartsWith(authorization.value, Scheme) then None
    else
      var header := authorization.value;
      assert header == "Bearer" + [' '] + header[|Scheme|..];
      SplitAfterPiece("Bearer", ' ', header[|Scheme|..]);
      SplitHead(header[|Scheme|..], ' ');
      Some(Split(header, ' ')[1])
  }

  /** A header built from a token without spaces gives that token back. */
  lemma BearerTokenRoundTrip(token: string)
    requires ' ' !in token
    ensures BearerToken(Some(Scheme + token)) == Some(token)
  {
    var header := Scheme + token;
    assert header[..|Scheme|] == Scheme;
    assert header[|Scheme|..] == token;
    BeforeWithoutSeparator(token, ' ');
  }

  lemma {:induction false} BeforeWithoutSeparator(s: string, sep: char)
    requires sep !in s
    ensures Before(s, sep) == s
  {
    if |s| > 0 {
      BeforeWithoutSeparator(s[1..], sep);
      assert s == [s[0]] + s[1..];
    }
  }

  /** The scheme is matched case-sensitively and needs its space. */
  lemma SchemeIsExact(token: string)
    ensures BearerToken(Some("bearer " + token)).None?
    ensures BearerToken(Some("Bearer")).None?
  {
    assert ("bearer " + token)[0] == 'b';
  }

  /** Who a request is: the `sub` of its token and the id of the user
      holding that Auth0 id. */
  datatype Principal = Principal(auth0Id: string, userId: string)

  /** The principal of a request, or none when the header is missing or of
      another scheme, the token does not decode, the store fails, or no user
      has the token's Auth0 id. */
  function Authenticate(authorization: Option<string>, users: map<string, User>,
                        decode: string -> Option<string>, storeFails: bool): (p: Option<Principal>)
    requires UniqueAuth0Ids(users)
    ensures p.Some? <==>
      && BearerToken(authorization).Some?
      && decode(BearerToken(authorization).value).Some?
      && !storeFails
      && exists k :: k in users && users[k].auth0Id == decode(BearerToken(authorization).value).value
    ensures p.Some? ==>
      && decode(BearerToken(authorization).value) == Some(p.value.auth0Id)
      && p.value.userId in users && users[p.value.userId].auth0Id == p.value.auth0Id
  {
    match BearerToken(authorization)
    case None => None
    case Some(token) =>
      match decode(token)
      case None => None
      case Some(sub) =>
        if storeFails then None
        else match UserWithAuth0Id(users, sub)
          case None => None
          case Some(id) => Some(Principal(sub, id))
  }

  /** The principal names the one user with that Auth0 id, so two requests
      whose tokens carry the same `sub` act for the same user. */
  lemma PrincipalIsUnique(a: Option<string>, b: Option<string>, users: map<string, User>,
                          decode: string -> Option<string>)
    requires UniqueAuth0Ids(users)
    requires Authenticate(a, users, decode, false).Some? && Authenticate(b, users, decode, false).Some?
    requires Authenticate(a, users, decode, false).value.auth0Id == Authenticate(b, users, decode, false).value.auth0Id
    ensures Authenticate(a, users, decode, false) == Authenticate(b, users, decode, false)
  {
  }

  /** A request as the middleware sees it: its header, and the two fields
      it sets. */
  class Request {
    const authorization: Option<string>
    var auth0Id: Option<string>
    var userId: Option<string>

    constructor (authorization: Option<string>)
      ensures this.authorization == authorization && auth0Id.None? && userId.None?
    {
      this.authorization := authorization;
      auth0Id := None;
      userId := None;
    }
  }

  /** `jwtParse`: on success it sets the request's Auth0 id and user id and
      calls `next`; otherwise it answers 401 and leaves the request alone. */
  method JwtParse(req: Request, db: Db, decode: string -> Option<string>, storeFails: bool)
    returns (outcome: Outcome<()>)
    requires db.Valid()
    modifies req
    ensures match Authenticate(req.authorization, db.users, decode, storeFails)
      case None => outcome == Halt(Reply(Unauthorized, NoContent)) && unchanged(req)
      case Some(p) => outcome == CallNext && req.auth0Id == Some(p.auth0Id) && req.userId == Some(p.userId)
  {
    var authorization := req.authorization;
    var token := BearerToken(authorization);
    if token.None? {
      return Halt(Reply(Unauthorized, NoContent));
    }
    var decoded := decode(token.value);
    if decoded.None? || storeFails {
      return Halt(Reply(Unauthorized, NoContent));
    }
    var auth0Id := decoded.value;
    var user := UserWithAuth0Id(db.users, auth0Id);
    if user.None? {
      return Halt(Reply(Unauthorized, NoContent));
    }
    req.auth0Id := Some(auth0Id);
    req.userId := Some(user.value);
    outcome := CallNext;
  }
}
