/**
 * The role gate of server/src/milddleware/auth-middleware.ts: the bearer token is taken
 * from the Authorization header, decoded without verification, and the request passes
 * only when the lower-cased `custom:role` claim is one of the route's allowed roles.
 */
module AuthMiddleware {
  import opened Options
  import opened Text

  /** A claim of the decoded payload: text, or another JSON value and its truthiness. */
  datatype ClaimValue = Str(s: string) | NonText(truthy: bool)

  /** The claims the middleware reads; `None` is a claim the payload does not carry. */
  datatype Claims = Claims(sub: Option<ClaimValue>, role: Option<ClaimValue>, customRole: Option<ClaimValue>)

  /** What `jwt.decode` gives: the payload's claims, or `null` for a token it cannot read. */
  datatype Decoded = Payload(claims: Claims) | Unreadable

  /** The four answers: 401, 400, 403, or `next()`. */
  datatype Outcome = Unauthorized | BadRequest | Forbidden | Proceed

  /** The status code sent, 0 standing for "none: the next handler runs". */
  function Status(o: Outcome): (code: int)
    ensures o == Proceed <==> code == 0
    ensures o == Unauthorized <==> code == 401
    ensures o == BadRequest <==> code == 400
    ensures o == Forbidden <==> code == 403
    ensures o != Proceed ==> 400 <= code < 500
  {
    match o
    case Unauthorized => 401
    case BadRequest => 400
    case Forbidden => 403
    case Proceed => 0
  }

  /** The message of the JSON body sent with each refusal. */
  function Message(o: Outcome): (m: string)
    ensures m == "" <==> o == Proceed
  {
    match o
    case Unauthorized => "Unauthorized"
    case BadRequest => "Invalid token"
    case Forbidden => "Access denied"
    case Proceed => ""
  }

  /** Each answer has its own message, so a client can tell the refusals apart. */
  lemma MessagesDistinct(a: Outcome, b: Outcome)
    ensures a != b ==> Message(a) != Message(b)
  {
  }

  /**
   * `authorization?.split(" ")[1]`: the second space-separated field of the header, the
   * empty string standing for both `undefined` and `""` (both falsy).
   */
  function Token(header: Option<string>): (t: string)
    ensures header.None? ==> t == ""
    ensures header.Some? && ' ' !in header.value ==> t == ""
    ensures ' ' !in t
  {
    if header.None? then ""
    else
      var parts := Split(header.value, ' ');
      CountZero(header.value, ' ');
      if |parts| < 2 then "" else parts[1]
  }

  /**
   * `decoded["custom:role"] || ""`: the role text, or `None` when the claim is a truthy
   * value other than text, whose `toLowerCase` then throws.
   */
  function RoleText(c: Claims): (r: Option<string>)
    ensures r.None? <==> c.customRole.Some? && c.customRole.value.NonText? && c.customRole.value.truthy
    ensures c.customRole.None? ==> r == Some("")
    ensures c.customRole.Some? && c.customRole.value.Str? ==> r == Some(c.customRole.value.s)
  {
    match c.customRole
    case None => Some("")
    case Some(Str(s)) => Some(s)
    case Some(NonText(truthy)) => if truthy then None else Some("")
  }

  /** The answer of `authMiddleware(allowedRoles)` for a request with this header. */
  function Decide(header: Option<string>, decode: string -> Decoded, allowedRoles: seq<string>): (o: Outcome)
    ensures Status(o) == 401 <==> Token(header) == ""
    ensures Status(o) == 400 <==>
              Token(header) != "" && (decode(Token(header)).Unreadable? || RoleText(decode(Token(header)).claims).None?)
    ensures Status(o) == 403 <==>
              && Token(header) != "" && decode(Token(header)).Payload?
              && RoleText(decode(Token(header)).claims).Some?
              && ToLower(RoleText(decode(Token(header)).claims).value) !in allowedRoles
  {
    var token := Token(header);
    if token == "" then Unauthorized
    else match decode(token)
      case Unreadable => BadRequest
      case Payload(claims) =>
        match RoleText(claims)
        case None => BadRequest
        case Some(role) => if ToLower(role) in allowedRoles then Proceed else Forbidden
  }

  /** `req.user` as the middleware sets it. */
  datatype User = User(id: Option<ClaimValue>, role: Option<ClaimValue>)

  /** The parts of a request the middleware reads and writes. */
  class Request {
    var authorization: Option<string>
    var user: Option<User>

    constructor (authorization: Option<string>)
      ensures this.authorization == authorization && user.None?
    {
      this.authorization := authorization;
      user := None;
    }

    /**
     * The middleware on this request. `decode` is `jwt.decode`. The user is set as soon
     * as the token decodes, before the role is checked, and carries the `sub` claim and
     * the plain `role` claim (not `custom:role`).
     */
    method Authorize(allowedRoles: seq<string>, decode: string -> Decoded) returns (outcome: Outcome)
      modifies this`user
      ensures outcome == Decide(authorization, decode, allowedRoles)
      ensures var token := Token(authorization);
              if token != "" && decode(token).Payload?
              then user == Some(User(decode(token).claims.sub, decode(token).claims.role))
              else user == old(user)
    {
      var token := Token(authorization);
      if token == "" {
        return Unauthorized;
      }
      var decoded := decode(token);
      if decoded.Unreadable? {
        // reading a claim of `null` throws
        return BadRequest;
      }
      var userRole := RoleText(decoded.claims);
      user := Some(User(decoded.claims.sub, decoded.claims.role));
      if userRole.None? {
        return BadRequest;
      }
      if ToLower(userRole.value) in allowedRoles {
        outcome := Proceed;
      } else {
        outcome := Forbidden;
      }
    }
  }

  /**
   * The request passes exactly when it has a token, the token decodes, and the lower-cased
   * `custom:role` text is one of the allowed roles.
   */
  lemma ProceedIff(header: Option<string>, decode: string -> Decoded, allowedRoles: seq<string>)
    ensures Decide(header, decode, allowedRoles) == Proceed <==>
      var token := Token(header);
      && token != ""
      && decode(token).Payload?
      && RoleText(decode(token).claims).Some?
      && ToLower(RoleText(decode(token).claims).value) in allowedRoles
  {
  }

  /**
   * The scheme word is not checked: any word, a space and a token give that token, and
   * a header without a space gives none and is refused with 401.
   */
  lemma {:induction false} SchemeIgnored(scheme: string, token: string)
    requires ' ' !in scheme && ' ' !in token
    ensures Token(Some(scheme + " " + token)) == token
  {
    SplitJoin([scheme, token], ' ');
    assert Join([scheme, token], ' ') == scheme + " " + token by {
      assert [scheme, token][1..] == [token];
    }
  }

  lemma NoSpaceUnauthorized(header: string, decode: string -> Decoded, allowedRoles: seq<string>)
    requires ' ' !in header
    ensures Decide(Some(header), decode, allowedRoles) == Unauthorized
    ensures Message(Decide(Some(header), decode, allowedRoles)) == "Unauthorized"
  {
  }

  /** Without a header the answer is 401, whatever the decoder and the roles. */
  lemma NoHeaderUnauthorized(decode: string -> Decoded, allowedRoles: seq<string>)
    ensures Decide(None, decode, allowedRoles) == Unauthorized
    ensures Message(Decide(None, decode, allowedRoles)) == "Unauthorized"
  {
  }

  /** A payload without `custom:role` is read as role `""`: refused unless `""` is allowed. */
  lemma MissingRole(header: Option<string>, decode: string -> Decoded, allowedRoles: seq<string>)
    requires Token(header) != "" && decode(Token(header)).Payload?
    requires decode(Token(header)).claims.customRole.None?
    ensures Decide(header, decode, allowedRoles) == (if "" in allowedRoles then Proceed else Forbidden)
    ensures "" !in allowedRoles ==> Message(Decide(header, decode, allowedRoles)) == "Access denied"
  {
    assert ToLower("") == "";
  }

  /** A token the decoder cannot read is refused with 400. */
  lemma UnreadableBadRequest(header: Option<string>, decode: string -> Decoded, allowedRoles: seq<string>)
    requires Token(header) != "" && decode(Token(header)).Unreadable?
    ensures Decide(header, decode, allowedRoles) == BadRequest
    ensures Message(Decide(header, decode, allowedRoles)) == "Invalid token"
  {
  }

  /** The role is compared lower-cased: `"Manager"` passes a gate that allows `"manager"`. */
  lemma RoleComparedLowerCased(header: Option<string>, decode: string -> Decoded)
    requires Token(header) != ""
    requires decode(Token(header)) == Payload(Claims(None, None, Some(Str("Manager"))))
    ensures Decide(header, decode, ["manager"]) == Proceed
    ensures Decide(header, decode, ["Manager"]) == Forbidden
  {
    assert ToLower("Manager") == "manager";
  }
}
