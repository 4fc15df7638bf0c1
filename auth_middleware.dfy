/** The admission chain of `src/middlewares/authMiddleware.js`: the bearer token,
    `protect`, `restrictTo` and `optionalAuth`. Signature checking is a parameter:
    `verify` answers the decoded claims of a token, or `None` when it is refused. */
module AuthMiddleware {
  import opened Common

  datatype Role = Admin | Merchant | Worker

  /** The role string of a token, dispatched by the `switch`. */
  function ParseRole(s: string): (r: Option<Role>)
    ensures r == Some(Admin) <==> s == "admin"
    ensures r == Some(Merchant) <==> s == "merchant"
    ensures r == Some(Worker) <==> s == "worker"
  {
    if s == "admin" then Some(Admin)
    else if s == "merchant" then Some(Merchant)
    else if s == "worker" then Some(Worker)
    else None
  }

  function RoleName(r: Role): string
  {
    match r
    case Admin => "admin"
    case Merchant => "merchant"
    case Worker => "worker"
  }

  /** The decoded token payload. */
  datatype Claims = Claims(role: string, userId: Id)

  /** What the middleware reads from an account document. */
  datatype Account = Account(email: string, status: string)

  /** The three account collections `findById` is dispatched to. */
  datatype Directory = Directory(admins: map<Id, Account>, merchants: map<Id, Account>, workers: map<Id, Account>)

  function AccountsOf(dir: Directory, role: Role): map<Id, Account>
  {
    match role
    case Admin => dir.admins
    case Merchant => dir.merchants
    case Worker => dir.workers
  }

  /** `req.user`. */
  datatype User = User(userId: Id, role: Role, email: string, status: string)

  datatype AuthError =
    | NotLoggedIn     // 401 'You are not logged in!'
    | TokenRejected   // `jwt.verify` threw
    | InvalidRole     // 401 'Invalid user role in token'
    | UserGone        // 401 'The user belonging to this token does no longer exist.'
    | NotApproved     // 401 'Your account is not approved yet.'
    | Inactive        // 401 'Your account is inactive.'
    | Forbidden       // 403 'You do not have permission to perform this action'

  function StatusCode(e: AuthError): Option<int>
  {
    match e
    case TokenRejected => None   // decided by the application's error handler
    case Forbidden => Some(403)
    case _ => Some(401)
  }

  // ---------------------------------------------------------------------------
  // The bearer token

  predicate StartsWith(s: string, prefix: string)
  {
    |prefix| <= |s| && s[..|prefix|] == prefix
  }

  /** The text after the first space, when there is one. */
  function AfterFirstSpace(s: string): (r: Option<string>)
    ensures r.None? <==> ' ' !in s
    ensures r.Some? ==> |r.value| < |s|
  {
    if s == [] then None
    else if s[0] == ' ' then Some(s[1..])
    else AfterFirstSpace(s[1..])
  }

  /** The longest prefix without a space. */
  function UpToSpace(s: string): (r: string)
    ensures ' ' !in r
    ensures |r| <= |s| && r == s[..|r|]
    ensures |r| < |s| ==> s[|r|] == ' '
  {
    if s == [] || s[0] == ' ' then [] else [s[0]] + UpToSpace(s[1..])
  }

  /** `split(' ')[1]`: the second space-separated field, absent when there is no space. */
  function SecondField(s: string): Option<string>
  {
    match AfterFirstSpace(s)
    case None => None
    case Some(rest) => Some(UpToSpace(rest))
  }

  /** The token `protect` and `optionalAuth` extract; an empty field counts as no token. */
  function BearerToken(header: Option<string>): (t: Option<string>)
    ensures t.Some? ==> header.Some? && StartsWith(header.value, "Bearer") && t.value != [] && ' ' !in t.value
  {
    if header.Some? && StartsWith(header.value, "Bearer") then
      match SecondField(header.value)
      case Some(tok) => if tok != [] then Some(tok) else None
      case None => None
    else None
  }

  /** The well-formed header yields its token. */
  lemma BearerRoundTrip(token: string)
    requires token != [] && ' ' !in token
    ensures BearerToken(Some("Bearer " + token)) == Some(token)
  {
    var h := "Bearer " + token;
    assert h[..6] == "Bearer";
    assert h[6] == ' ' && h[7..] == token;
    AfterSpacelessPrefix("Bearer", " " + token);
    assert h == "Bearer" + (" " + token);
    UpToSpaceWhole(token);
  }

  /** The first space after a space-free prefix is the one that follows it. */
  lemma {:induction false} AfterSpacelessPrefix(p: string, s: string)
    requires ' ' !in p && s != [] && s[0] == ' '
    ensures AfterFirstSpace(p + s) == Some(s[1..])
  {
    if p == [] {
      assert p + s == s;
    } else {
      assert (p + s)[0] == p[0] != ' ';
      assert (p + s)[1..] == p[1..] + s;
      assert ' ' !in p[1..] by {
        forall i | 0 <= i < |p[1..]| ensures p[1..][i] != ' ' { assert p[1..][i] == p[i + 1]; }
      }
      AfterSpacelessPrefix(p[1..], s);
    }
  }

  lemma {:induction false} UpToSpaceWhole(s: string)
    requires ' ' !in s
    ensures UpToSpace(s) == s
  {
    if s != [] {
      assert ' ' !in s[1..] by {
        forall i | 0 <= i < |s[1..]| ensures s[1..][i] != ' ' { assert s[1..][i] == s[i + 1]; }
      }
      UpToSpaceWhole(s[1..]);
    }
  }

  /** A header without a space, such as `Bearer` alone, gives no token; so does a
      header with two spaces after `Bearer`. */
  lemma NoTokenWithoutSeparator(h: string, rest: string)
    ensures ' ' !in h ==> BearerToken(Some(h)).None?
    ensures BearerToken(Some("Bearer  " + rest)).None?
  {
    var h2 := "Bearer  " + rest;
    assert h2[..6] == "Bearer";
    AfterSpacelessPrefix("Bearer", "  " + rest);
    assert h2 == "Bearer" + ("  " + rest);
    assert ("  " + rest)[1..][0] == ' ';
  }

  // ---------------------------------------------------------------------------
  // protect / restrictTo / optionalAuth

  /** The status rule after the account is found: merchants must be `approved` or
      `active`, workers `active`; administrators are not checked. */
  predicate StatusAdmits(role: Role, status: string)
  {
    match role
    case Admin => true
    case Merchant => status == "approved" || status == "active"
    case Worker => status == "active"
  }

  /** `protect`. */
  function Protect(header: Option<string>, verify: string -> Option<Claims>, dir: Directory): Result<User, AuthError>
  {
    match BearerToken(header)
    case None => Err(NotLoggedIn)
    case Some(token) =>
      match verify(token)
      case None => Err(TokenRejected)
      case Some(claims) =>
        match ParseRole(claims.role)
        case None => Err(InvalidRole)
        case Some(role) =>
          var accounts := AccountsOf(dir, role);
          if claims.userId !in accounts then Err(UserGone)
          else
            var account := accounts[claims.userId];
            if role == Merchant && !StatusAdmits(role, account.status) then Err(NotApproved)
            else if role == Worker && !StatusAdmits(role, account.status) then Err(Inactive)
            else Ok(User(claims.userId, role, account.email, account.status))
  }

  /** Who `protect` admits: exactly the holders of a verified token of a known role
      whose account exists and whose status the role admits; the user it sets is that
      account. Each refusal comes from the first check that fails. */
  lemma ProtectAdmission(header: Option<string>, verify: string -> Option<Claims>, dir: Directory)
    ensures var r := Protect(header, verify, dir);
      && (r.Ok? <==>
            && BearerToken(header).Some?
            && verify(BearerToken(header).value).Some?
            && var c := verify(BearerToken(header).value).value;
               && ParseRole(c.role).Some?
               && c.userId in AccountsOf(dir, ParseRole(c.role).value)
               && StatusAdmits(ParseRole(c.role).value, AccountsOf(dir, ParseRole(c.role).value)[c.userId].status))
      && (r.Ok? ==>
            var c := verify(BearerToken(header).value).value;
            && r.value.userId == c.userId && RoleName(r.value.role) == c.role
            && r.value.status == AccountsOf(dir, r.value.role)[c.userId].status
            && r.value.email == AccountsOf(dir, r.value.role)[c.userId].email)
      && (r == Err(NotLoggedIn) <==> BearerToken(header).None?)
      && (r == Err(TokenRejected) <==> BearerToken(header).Some? && verify(BearerToken(header).value).None?)
      && (r.Err? && r.error != TokenRejected ==> StatusCode(r.error) == Some(401))
  {
  }

  /** A merchant whose status is, say, `pending` is refused even with a valid token;
      an administrator is admitted whatever its status. */
  lemma ProtectStatusScenarios(token: string, verify: string -> Option<Claims>, dir: Directory, id: Id)
    requires token != [] && ' ' !in token
    ensures verify(token) == Some(Claims("merchant", id)) && id in dir.merchants && dir.merchants[id].status == "pending"
            ==> Protect(Some("Bearer " + token), verify, dir) == Err(NotApproved)
    ensures verify(token) == Some(Claims("admin", id)) && id in dir.admins
            ==> Protect(Some("Bearer " + token), verify, dir).Ok?
  {
    BearerRoundTrip(token);
  }

  /** `restrictTo(...roles)`. */
  function RestrictTo(roles: seq<Role>, user: User): (r: Result<User, AuthError>)
    ensures r.Ok? <==> user.role in roles
    ensures r.Ok? ==> r.value == user
    ensures r.Err? ==> r.error == Forbidden && StatusCode(r.error) == Some(403)
  {
    if user.role in roles then Ok(user) else Err(Forbidden)
  }

  /** `optionalAuth`: never refuses; it sets the user when `protect` would have found
      one, without any status check. */
  function OptionalAuth(header: Option<string>, verify: string -> Option<Claims>, dir: Directory): Option<User>
  {
    match BearerToken(header)
    case None => None
    case Some(token) =>
      match verify(token)
      case None => None
      case Some(claims) =>
        match ParseRole(claims.role)
        case None => None
        case Some(role) =>
          var accounts := AccountsOf(dir, role);
          if claims.userId in accounts then
            Some(User(claims.userId, role, accounts[claims.userId].email, accounts[claims.userId].status))
          else None
  }

  /** `optionalAuth` sets a user exactly when `protect` gets past the existence
      check, and then the same user; every user `protect` admits, `optionalAuth`
      sets too, but not the other way round (an inactive worker). */
  lemma OptionalAuthAgreesWithProtect(header: Option<string>, verify: string -> Option<Claims>, dir: Directory)
    ensures var o := OptionalAuth(header, verify, dir);
      var p := Protect(header, verify, dir);
      && (o.Some? <==> p.Ok? || p == Err(NotApproved) || p == Err(Inactive))
      && (p.Ok? ==> o == Some(p.value))
      && (o.Some? ==> o.value.userId == verify(BearerToken(header).value).value.userId)
  {
  }

  /** The request whose `user` field the middleware assigns. */
  class Request {
    var user: Option<User>

    constructor ()
      ensures user.None?
    {
      user := None;
    }

    /** `protect` on this request: on admission `req.user` is set and the chain
        continues; otherwise the request is left as it was. */
    method RunProtect(header: Option<string>, verify: string -> Option<Claims>, dir: Directory)
      returns (r: Result<User, AuthError>)
      modifies this
      ensures r == Protect(header, verify, dir)
      ensures r.Ok? ==> user == Some(r.value)
      ensures r.Err? ==> user == old(user)
    {
      r := Protect(header, verify, dir);
      if r.Ok? {
        user := Some(r.value);
      }
    }

    /** `optionalAuth` on this request: it always continues. */
    method RunOptionalAuth(header: Option<string>, verify: string -> Option<Claims>, dir: Directory)
      modifies this
      ensures OptionalAuth(header, verify, dir).Some? ==> user == OptionalAuth(header, verify, dir)
      ensures OptionalAuth(header, verify, dir).None? ==> user == old(user)
    {
      var found := OptionalAuth(header, verify, dir);
      if found.Some? {
        user := found;
      }
    }
  }
}
