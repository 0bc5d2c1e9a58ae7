/**
 * Registration and login over the users table, keyed by email. The password
 * hash (bcrypt) is an uninterpreted function fixed when the service is built,
 * and a signed token is an opaque value of which only the claim and the
 * lifetime are observable.
 */
module Auth {
  import opened Wrappers
  import Json

  /** The claim both handlers sign: { userId, email } */
  datatype Claim = Claim(userId: string, email: string)

  /** jwt.sign(claim, secret, { expiresIn }) */
  datatype Token = Token(claim: Claim, expiresIn: string)

  const TokenLifetime := "1h"

  /** A row of the users table; `password` holds the hash */
  datatype User = User(id: string, email: string, password: string, name: string, role: string)

  /** The columns register reads back after the insert: id, email, name */
  datatype PublicUser = PublicUser(id: string, email: string, name: string)

  /** What the two handlers answer: `{ error }`, or `{ user, token }` (the whole row, on login) */
  datatype Reply =
    | Refused(code: int, error: string)
    | Registered(account: PublicUser, token: Token)
    | LoggedIn(row: User, token: Token)
  {
    function Code(): int {
      match this
      case Refused(code, _) => code
      case Registered(_, _) => 201
      case LoggedIn(_, _) => 200
    }
  }

  const MissingRegisterFields := "Email, password, and name are required"
  const MissingLoginFields := "Email and password are required"
  const EmailInUse := "Email already in use"
  const InvalidCredentials := "Invalid credentials"

  /** The role the users table gives a row inserted without one */
  const DefaultRole := "user"

  /** A body field is truthy: present and not the empty string */
  predicate Present(s: Option<string>): (p: bool)
    ensures p <==> s.Some? && Json.Truthy(Json.JString(s.value))
  {
    s.Some? && s.value != ""
  }

  function Sign(id: string, email: string): (t: Token)
    ensures t.claim.userId == id && t.claim.email == email && t.expiresIn == TokenLifetime
  {
    Token(Claim(id, email), TokenLifetime)
  }

  class AuthService {
    /** bcrypt.hash(password, 10); bcrypt.compare(p, h) is hash(p) == h */
    const hash: string -> string
    /** The users table: one row per email */
    var users: map<string, User>

    ghost predicate Valid()
      reads this
    {
      forall e :: e in users ==> users[e].email == e
    }

    constructor (hash: string -> string, users: map<string, User>)
      requires forall e :: e in users ==> users[e].email == e
      ensures Valid() && this.hash == hash && this.users == users
    {
      this.hash := hash;
      this.users := users;
    }

    /**
     * registerController. `newId` is the id the table assigns; `lookupFault`
     * and `insertFault` are the database's errors for the email lookup and the
     * insert, when they fail.
     */
    method Register(email: Option<string>, password: Option<string>, name: Option<string>,
                    newId: string, lookupFault: Option<string>, insertFault: Option<string>)
      returns (r: Reply)
      requires Valid()
      modifies this
      ensures Valid()
      ensures !(Present(email) && Present(password) && Present(name)) ==>
        r == Refused(400, MissingRegisterFields)
      ensures Present(email) && Present(password) && Present(name) && lookupFault.Some? ==>
        r == Refused(500, lookupFault.value)
      ensures Present(email) && Present(password) && Present(name) && lookupFault.None? && email.value in old(users) ==>
        r == Refused(400, EmailInUse)
      ensures (Present(email) && Present(password) && Present(name) && lookupFault.None?
               && email.value !in old(users) && insertFault.Some?) ==>
        r == Refused(500, insertFault.value)
      ensures r.Code() == 201 <==> r.Registered?
      ensures r.Registered? <==>
        Present(email) && Present(password) && Present(name) && lookupFault.None?
        && email.value !in old(users) && insertFault.None?
      ensures !r.Registered? ==> users == old(users)
      ensures r.Registered? ==>
        && users == old(users)[email.value := User(newId, email.value, hash(password.value), name.value, DefaultRole)]
        && r.account == PublicUser(newId, email.value, name.value)
        && r.token == Token(Claim(newId, email.value), TokenLifetime)
    {
      if !Present(email) || !Present(password) || !Present(name) {
        return Refused(400, MissingRegisterFields);
      }
      if lookupFault.Some? {
        return Refused(500, lookupFault.value);
      }
      if email.value in users {
        return Refused(400, EmailInUse);
      }
      var hashed := hash(password.value);
      if insertFault.Some? {
        return Refused(500, insertFault.value);
      }
      users := users[email.value := User(newId, email.value, hashed, name.value, DefaultRole)];
      var user := PublicUser(newId, email.value, name.value);
      r := Registered(user, Sign(user.id, user.email));
    }

    /**
     * loginController: reads the table and never changes it. A failed lookup,
     * an unknown email and a wrong password all get the same 401 answer.
     */
    function Login(email: Option<string>, password: Option<string>, fault: Option<string>): (r: Reply)
      reads this
      ensures !(Present(email) && Present(password)) ==> r == Refused(400, MissingLoginFields)
      ensures r.Code() == 200 <==> r.LoggedIn?
      ensures Valid() && r.LoggedIn? ==> r.token.claim.email == email.value
      ensures r.LoggedIn? <==>
        Present(email) && Present(password) && fault.None? && email.value in users
        && hash(password.value) == users[email.value].password
      ensures Present(email) && Present(password) && !r.LoggedIn? ==> r == Refused(401, InvalidCredentials)
      ensures r.LoggedIn? ==>
        r.row == users[email.value] && r.token == Token(Claim(r.row.id, r.row.email), TokenLifetime)
    {
      if !Present(email) || !Present(password) then Refused(400, MissingLoginFields)
      else if fault.Some? || email.value !in users then Refused(401, InvalidCredentials)
      else
        var user := users[email.value];
        if hash(password.value) != user.password then Refused(401, InvalidCredentials)
        else LoggedIn(user, Sign(user.id, user.email))
    }
  }

  /**
   * After a successful registration, logging in with the same email and
   * password succeeds with a token for the same claim, while any password
   * whose hash differs gets the generic 401.
   */
  method RegisterThenLogin(s: AuthService, email: string, password: string, name: string, newId: string, other: string)
    returns (registered: Reply, login: Reply, wrong: Reply)
    requires s.Valid() && email != "" && password != "" && name != "" && other != ""
    requires email !in s.users
    requires s.hash(other) != s.hash(password)
    modifies s
    ensures registered.Registered? && login.LoggedIn?
    ensures login.token == registered.token
    ensures login.row.password == s.hash(password)
    ensures wrong == Refused(401, InvalidCredentials)
  {
    registered := s.Register(Some(email), Some(password), Some(name), newId, None, None);
    login := s.Login(Some(email), Some(password), None);
    wrong := s.Login(Some(email), Some(other), None);
  }
}
