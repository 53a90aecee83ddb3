/** Account and session decisions of backend/server.js: the `auth`
    middleware and the `/register` and `/login` routes over the user
    collection. bcrypt and jsonwebtoken are foreign libraries: they appear
    as a record of function values whose only known properties are those
    of `Sound`. */
module Auth {
  import opened Wrappers
  import opened Http
  import JobModel

  type ObjectId = JobModel.ObjectId
  type Token = string
  type Salt = nat
  type Digest = string

  /** `expiresIn: 36000`, in seconds. */
  const TokenLifetime: int := 36000

  const NoTokenMsg: string := "No token, authorization denied"
  const BadTokenMsg: string := "Token is not valid"
  const DuplicateMsg: string := "User already exists"
  const NoUserMsg: string := "User does not exist"
  const BadPasswordMsg: string := "Invalid credentials"

  /** The payload `jwt.verify` decodes: the signed `{ id }` with the
      `iat`/`exp` seconds jsonwebtoken adds. */
  datatype Claims = Claims(id: ObjectId, iat: int, exp: int)

  /** The foreign primitives. Clocks are in whole seconds. */
  datatype Crypto = Crypto(
    hash: (string, Salt) -> Digest,           // bcrypt.hash(password, salt)
    compare: (string, Digest) -> bool,        // bcrypt.compare(password, hash)
    sign: (ObjectId, int) -> Token,           // jwt.sign({ id }, JWT_SECRET, { expiresIn }) at second iat
    verify: (Token, int) -> Option<Claims>)   // jwt.verify(token, JWT_SECRET) at second now; None = throws

  /** What the model assumes of the primitives: a password matches its own
      hash; a token is never the empty string and, until it expires,
      verifies to the claims it was signed with; and `verify` never accepts
      an expired token. */
  ghost predicate Sound(c: Crypto) {
    (forall p, s :: c.compare(p, c.hash(p, s))) &&
    (forall id, iat :: c.sign(id, iat) != "") &&
    (forall id, iat, now :: iat <= now < iat + TokenLifetime ==>
       c.verify(c.sign(id, iat), now) == Some(Claims(id, iat, iat + TokenLifetime))) &&
    (forall t, now :: c.verify(t, now).Some? ==> now < c.verify(t, now).value.exp)
  }

  /** The outcome of the `auth` middleware: a refusal, or `next()` with
      `req.user` set to the decoded payload. */
  datatype Gate = Deny(status: int, msg: string) | Pass(user: Claims)

  /** The `auth` middleware on the `x-auth-token` header at second `now`. */
  function Authenticate(c: Crypto, header: Option<Token>, now: int): (g: Gate)
    ensures header.None? || header.value == "" ==> g == Deny(401, NoTokenMsg)
    ensures header.Some? && header.value != "" && c.verify(header.value, now).None? ==>
              g == Deny(400, BadTokenMsg)
    ensures g.Pass? <==> header.Some? && header.value != "" && c.verify(header.value, now).Some?
    ensures g.Pass? ==> c.verify(header.value, now) == Some(g.user)
  {
    if header.None? || header.value == "" then Deny(401, NoTokenMsg)
    else match c.verify(header.value, now)
      case None => Deny(400, BadTokenMsg)
      case Some(claims) => Pass(claims)
  }

  /** A token the server issued at second `iat` lets its holder through
      the middleware, as that account, for the next 36000 seconds. This
      follows from what `Sound` assumes of `jwt.verify` on a token
      `jwt.sign` made. */
  lemma IssuedTokenPasses(c: Crypto, id: ObjectId, iat: int, now: int)
    requires Sound(c)
    requires iat <= now < iat + TokenLifetime
    ensures Authenticate(c, Some(c.sign(id, iat)), now) == Pass(Claims(id, iat, iat + TokenLifetime))
  {
  }

  /** No request gets through with an expired token. This follows from
      what `Sound` assumes of `jwt.verify`: it throws once `exp` has
      passed. */
  lemma PassedTokenUnexpired(c: Crypto, header: Option<Token>, now: int)
    requires Sound(c)
    requires Authenticate(c, header, now).Pass?
    ensures now < Authenticate(c, header, now).user.exp
  {
  }

  /** A user document: the bcrypt hash is stored in its `password` path. */
  datatype User = User(id: ObjectId, username: string, password: Digest)

  /** The `user` object a session reply exposes (no password hash). */
  datatype PublicUser = PublicUser(id: ObjectId, username: string)

  /** `{ token, user }`, the body of a successful register or login. */
  datatype Session = Session(token: Token, user: PublicUser)

  /** No two accounts share a username. */
  ghost predicate UniqueNames(users: seq<User>) {
    forall i, j :: 0 <= i < j < |users| ==> users[i].username != users[j].username
  }

  /** `User.findOne({ username })`. */
  function FindUser(users: seq<User>, username: string): (r: Option<User>)
    ensures r.Some? ==> r.value in users && r.value.username == username
    ensures r.None? <==> forall u :: u in users ==> u.username != username
  {
    if users == [] then None
    else if users[0].username == username then Some(users[0])
    else FindUser(users[1..], username)
  }

  /** POST /register at second `now`: `salt` is what `bcrypt.genSalt`
      drew, `id` the ObjectId the new document receives, and `fault`
      stands for a database call that throws. Gives the new user list and
      the reply. */
  function Register(users: seq<User>, c: Crypto, username: string, password: string,
                    salt: Salt, id: ObjectId, now: int, fault: bool): (r: (seq<User>, Reply<Session>))
    ensures fault ==> r == (users, ServerError(StoreFault))
    ensures !fault && FindUser(users, username).Some? ==> r == (users, Refused(400, DuplicateMsg))
    ensures r.1.Ok? <==> !fault && FindUser(users, username).None?
    ensures r.1.Ok? ==> r.0 == users + [User(id, username, c.hash(password, salt))]
    ensures r.1.Ok? ==> r.1.body == Session(c.sign(id, now), PublicUser(id, username))
  {
    if fault then (users, ServerError(StoreFault))
    else if FindUser(users, username).Some? then (users, Refused(400, DuplicateMsg))
    else
      var user := User(id, username, c.hash(password, salt));
      (users + [user], Ok(Session(c.sign(user.id, now), PublicUser(user.id, user.username))))
  }

  /** POST /login at second `now`. */
  function Login(users: seq<User>, c: Crypto, username: string, password: string,
                 now: int, fault: bool): (r: Reply<Session>)
    ensures fault ==> r == ServerError(StoreFault)
    ensures !fault && FindUser(users, username).None? ==> r == Refused(400, NoUserMsg)
    ensures !fault && FindUser(users, username).Some? && !c.compare(password, FindUser(users, username).value.password) ==>
              r == Refused(400, BadPasswordMsg)
    ensures !fault && FindUser(users, username).Some? && c.compare(password, FindUser(users, username).value.password) ==>
              r == Ok(Session(c.sign(FindUser(users, username).value.id, now),
                              PublicUser(FindUser(users, username).value.id, username)))
    ensures r.Ok? ==> exists u :: u in users && u.username == username && c.compare(password, u.password) &&
                                  r.body == Session(c.sign(u.id, now), PublicUser(u.id, username))
  {
    if fault then ServerError(StoreFault)
    else match FindUser(users, username)
      case None => Refused(400, NoUserMsg)
      case Some(user) =>
        if !c.compare(password, user.password) then Refused(400, BadPasswordMsg)
        else Ok(Session(c.sign(user.id, now), PublicUser(user.id, user.username)))
  }

  /** Registration keeps usernames unique. */
  lemma RegisterKeepsNamesUnique(users: seq<User>, c: Crypto, username: string, password: string,
                                 salt: Salt, id: ObjectId, now: int, fault: bool)
    requires UniqueNames(users)
    ensures UniqueNames(Register(users, c, username, password, salt, id, now, fault).0)
  {
  }

  /** With unique names, looking up the name of an account finds that
      account. */
  lemma {:induction false} FindUserUnique(users: seq<User>, u: User)
    requires UniqueNames(users)
    requires u in users
    ensures FindUser(users, u.username) == Some(u)
  {
    if users[0] != u {
      FindUserUnique(users[1..], u);
    }
  }

  /** Registering and then logging in with the same credentials succeeds,
      and the login token names the new account. */
  lemma RegisterThenLogin(users: seq<User>, c: Crypto, username: string, password: string,
                          salt: Salt, id: ObjectId, t1: int, t2: int)
    requires Sound(c)
    requires FindUser(users, username).None?
    ensures Register(users, c, username, password, salt, id, t1, false).1.Ok?
    ensures Login(Register(users, c, username, password, salt, id, t1, false).0, c, username, password, t2, false) ==
            Ok(Session(c.sign(id, t2), PublicUser(id, username)))
  {
  }
}
