/**
 * The credential store: registration and authorization over the `users` table.
 * The password hasher and its process-wide salt are fixed when the store is built.
 */
module UserRoutes {
  import opened Wrappers
  import opened Queries
  import opened Models
  import opened Tokens
  import opened HttpStatus

  const LOGIN_LENGTH_INCORRECT: string := "Login length is incorrect"
  const PASSWORD_LENGTH_INCORRECT: string := "Password length is incorrect"
  const LOGIN_ALREADY_EXISTS: string := "Login already exists"
  const AUTHORIZATION_FAILED: string := "Authorization failed. Please check your credentials"
  const TOKEN_TYPE: string := "bearer"

  /** What the two handlers answer. */
  datatype Reply =
    | Refused(status: int, message: string)
    | Registered(status: int, token: Claims, tokenType: string, userLogin: string)
    | Authorized(status: int, token: Claims, tokenType: string)

  /** Registration accepts logins of 5 to 50 characters. */
  predicate LoginLengthOk(login: string) {
    5 <= |login| <= 50
  }

  /** Registration accepts passwords of 5 to 25 characters. */
  predicate PasswordLengthOk(password: string) {
    5 <= |password| <= 25
  }

  /** No user in `us` has this login. */
  predicate LoginFree(us: seq<User>, login: string) {
    forall u :: u in us ==> u.login != login
  }

  function WithLogin(login: string): User -> bool {
    (u: User) => u.login == login
  }

  function WithCredentials(login: string, digest: Digest): User -> bool {
    (u: User) => u.login == login && u.password == digest
  }

  class UserStore {
    /** The process-wide salt (the SALT setting). */
    const salt: string
    /** The password hasher: deterministic in (password, salt). */
    const hash: (string, string) -> Digest
    /** The `users` table, in insertion order. */
    var users: seq<User>
    /** The id the next inserted user receives. */
    var nextId: int

    ghost predicate Valid()
      reads this
    {
      && UniqueLogins(users)
      && UniqueUserIds(users)
      && forall u :: u in users ==> u.id < nextId
    }

    constructor (salt: string, hash: (string, string) -> Digest)
      ensures Valid() && users == []
      ensures this.salt == salt && this.hash == hash
    {
      this.salt := salt;
      this.hash := hash;
      users := [];
      nextId := 1;
    }

    /** registration: validate the login, then the password, then uniqueness; insert; issue a 5-hour token. */
    method Registration(login: string, password: string, now: Timestamp) returns (reply: Reply)
      requires Valid()
      modifies this
      ensures Valid()
      ensures !LoginLengthOk(login) ==> reply == Refused(BAD_REQUEST, LOGIN_LENGTH_INCORRECT)
      ensures LoginLengthOk(login) && !PasswordLengthOk(password) ==>
        reply == Refused(BAD_REQUEST, PASSWORD_LENGTH_INCORRECT)
      ensures LoginLengthOk(login) && PasswordLengthOk(password) && !LoginFree(old(users), login) ==>
        reply == Refused(CONFLICT, LOGIN_ALREADY_EXISTS)
      ensures reply.Registered? <==>
        LoginLengthOk(login) && PasswordLengthOk(password) && LoginFree(old(users), login)
      ensures !reply.Registered? ==> reply.Refused? && users == old(users) && nextId == old(nextId)
      ensures reply.Registered? ==>
        && users == old(users) + [NewUser(old(nextId), login, hash(password, salt), now)]
        && reply == Registered(CREATED, CreateAccessToken(login, old(nextId), REGISTRATION_TTL, now),
                               TOKEN_TYPE, login)
    {
      if |login| < 5 || |login| > 50 {
        return Refused(BAD_REQUEST, LOGIN_LENGTH_INCORRECT);
      }
      if |password| < 5 || |password| > 25 {
        return Refused(BAD_REQUEST, PASSWORD_LENGTH_INCORRECT);
      }
      var sameLogin := Filter(users, WithLogin(login));
      if |sameLogin| > 0 {
        assert sameLogin[0] in users && sameLogin[0].login == login;
        return Refused(CONFLICT, LOGIN_ALREADY_EXISTS);
      }
      assert LoginFree(users, login) by {
        forall k | 0 <= k < |users| ensures users[k].login != login {
          assert users[k] !in sameLogin;
        }
      }
      var created := NewUser(nextId, login, hash(password, salt), now);
      users := users + [created];
      nextId := nextId + 1;
      reply := Registered(CREATED, CreateAccessToken(created.login, created.id, REGISTRATION_TTL, now),
                          TOKEN_TYPE, login);
    }

    /**
     * authorization: the first user with this login and the salted hash of this password
     * gets a 30-minute token; every failure gets the same 401 reply.
     */
    method Authorization(login: string, password: string, now: Timestamp) returns (reply: Reply)
      ensures reply.Authorized? <==>
        exists u :: u in users && u.login == login && u.password == hash(password, salt)
      ensures reply.Authorized? ==>
        && reply.status == OK && reply.tokenType == TOKEN_TYPE
        && exists u :: u in users && u.login == login && u.password == hash(password, salt)
                       && reply.token == CreateAccessToken(u.login, u.id, AUTHORIZATION_TTL, now)
      ensures !reply.Authorized? ==> reply == Refused(UNAUTHORIZED, AUTHORIZATION_FAILED)
    {
      var hashedPassword := hash(password, salt);
      var userInDB := First(users, WithCredentials(login, hashedPassword));
      if userInDB.Some? {
        var u := users[userInDB.value];
        reply := Authorized(OK, CreateAccessToken(u.login, u.id, AUTHORIZATION_TTL, now), TOKEN_TYPE);
      } else {
        reply := Refused(UNAUTHORIZED, AUTHORIZATION_FAILED);
        forall u | u in users ensures !(u.login == login && u.password == hashedPassword) {
          var k :| 0 <= k < |users| && users[k] == u;
          assert !WithCredentials(login, hashedPassword)(users[k]);
        }
      }
    }
  }

  /**
   * A user appended under a fresh login is the first (login, digest) match of the new table,
   * so the lookup of authorization finds exactly the user registration inserted.
   */
  lemma {:induction false} RegisteredUserIsFirstMatch(us: seq<User>, u: User)
    requires LoginFree(us, u.login)
    ensures First(us + [u], WithCredentials(u.login, u.password)) == Some(|us|)
  {
    if |us| > 0 {
      assert us[0] in us;
      assert (us + [u])[1..] == us[1..] + [u];
      RegisteredUserIsFirstMatch(us[1..], u);
    }
  }

  /** Registering a user never breaks the driver foreign key of the orders table. */
  lemma RegistrationKeepsDriversRegistered(os: seq<Order>, us: seq<User>, u: User)
    requires DriversRegistered(os, us)
    ensures DriversRegistered(os, us + [u])
  {
  }

  /**
   * Register, then authorize with the same credentials: when registration succeeds,
   * authorization succeeds for the user it created, and a second registration of the
   * same login is refused with 409.
   */
  method RegisterThenAuthorize(store: UserStore, login: string, password: string,
                               now: Timestamp, later: Timestamp)
    returns (registered: Reply, authorized: Reply, again: Reply)
    requires store.Valid()
    modifies store
    ensures store.Valid()
    ensures registered.Registered? ==>
      && authorized.Authorized?
      && authorized.token == CreateAccessToken(login, registered.token.userId, AUTHORIZATION_TTL, later)
      && again == Refused(CONFLICT, LOGIN_ALREADY_EXISTS)
  {
    registered := store.Registration(login, password, now);
    authorized := store.Authorization(login, password, later);
    if registered.Registered? {
      var u := store.users[|store.users| - 1];
      assert u in store.users;
      if authorized.Authorized? {
        var w :| w in store.users && w.login == login && w.password == store.hash(password, store.salt)
                 && authorized.token == CreateAccessToken(w.login, w.id, AUTHORIZATION_TTL, later);
        var i :| 0 <= i < |store.users| && store.users[i] == w;
        assert store.users[i].login == store.users[|store.users| - 1].login;
      }
    }
    again := store.Registration(login, password, later);
    if registered.Registered? {
      assert store.users[|store.users| - 1] in store.users;
    }
  }
}
