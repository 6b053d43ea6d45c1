/**
  The account rules of the `register` and `login` routes: the checks a
  registration form goes through, in order, and the test a login must pass.
  The user store is a map from user name to record; passwords are stored
  as `hash_password(password)`, taken here as a given function `hash`.
*/
module Accounts {

  /** Passwords shorter than this are refused at registration. */
  const MinPasswordLength: nat := 6

  /** A stored user: display name, password hash and creation time. */
  datatype User = User(name: string, passwordHash: string, createdAt: string)

  /** How a registration ends: the first check that fails, or the new user store. */
  datatype Registration =
    | UsernameTaken
    | PasswordsDiffer
    | PasswordTooShort
    | Registered(users: map<string, User>)

  /**
    The registration checks in the order the route makes them: a user name
    already in use, then a confirmation that differs from the password, then
    a password under six characters. Only a form that passes all three adds
    the user, and the first failing check is the one reported.
  */
  function Register(users: map<string, User>, username: string, name: string, password: string,
                    confirm: string, hash: string -> string, now: string): (r: Registration)
    ensures r.Registered? <==> username !in users && password == confirm && |password| >= MinPasswordLength
    ensures username in users ==> r == UsernameTaken
    ensures username !in users && password != confirm ==> r == PasswordsDiffer
    ensures username !in users && password == confirm && |password| < MinPasswordLength ==> r == PasswordTooShort
  {
    if username in users then UsernameTaken
    else if password != confirm then PasswordsDiffer
    else if |password| < MinPasswordLength then PasswordTooShort
    else Registered(users[username := User(name, hash(password), now)])
  }

  /** The login test: the user exists and the hash of the password given is the one stored. */
  predicate LoginAccepted(users: map<string, User>, username: string, password: string, hash: string -> string) {
    username in users && users[username].passwordHash == hash(password)
  }

  /**
    A successful registration adds exactly the new user, under the hash of
    its password, and changes no other account: the new user can log in with
    the password chosen, and every other login is decided as before.
  */
  lemma RegisterThenLogin(users: map<string, User>, username: string, name: string, password: string,
                          confirm: string, hash: string -> string, now: string)
    requires Register(users, username, name, password, confirm, hash, now).Registered?
    ensures var after := Register(users, username, name, password, confirm, hash, now).users;
      && after.Keys == users.Keys + {username}
      && after[username] == User(name, hash(password), now)
      && (forall other :: other in users ==> after[other] == users[other])
      && LoginAccepted(after, username, password, hash)
      && (forall other, pw :: other != username ==>
            (LoginAccepted(after, other, pw, hash) <==> LoginAccepted(users, other, pw, hash)))
  {
  }

  /** A refused registration leaves no account behind that could log in under the user name taken. */
  lemma RefusedNeverOverwrites(users: map<string, User>, username: string, name: string, password: string,
                               confirm: string, hash: string -> string, now: string)
    requires username in users
    ensures Register(users, username, name, password, confirm, hash, now) == UsernameTaken
  {
  }
}
