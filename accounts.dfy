/**
 * The account service: users keyed by username, with registration, login
 * and in-place profile update.
 */
module Accounts {
  import opened Domain

  class UserService {
    /** `userDatabase`: username to user. */
    var db: map<string, User>

    /** A service with no accounts. */
    constructor ()
      ensures db == map[]
    {
      db := map[];
    }

    /** A service seeded with initial accounts. */
    constructor WithUsers(users: map<string, User>)
      ensures db == users
    {
      db := users;
    }

    /** Every key names the user it maps to. */
    ghost predicate Keyed()
      reads this, db.Values
    {
      forall name :: name in db ==> db[name].username == name
    }

    /**
     * `registerUser`: rejects a username that is already a key; otherwise
     * adds exactly the entry `user.username -> user` (an empty username
     * included), after which that user can log in.
     */
    method RegisterUser(user: User) returns (ok: bool)
      modifies this
      ensures ok <==> user.username !in old(db)
      ensures db == if ok then old(db)[user.username := user] else old(db)
      ensures ok ==> LoginUser(user.username, user.password) == Some(user)
      ensures old(Keyed()) ==> Keyed()
    {
      if user.username in db {
        return false;
      }
      db := db[user.username := user];
      return true;
    }

    /**
     * `loginUser`: the stored user when `username` is a key and its stored
     * password equals `password`; otherwise none. Reads only.
     */
    function LoginUser(username: string, password: string): (r: Option<User>)
      reads this, db.Values
      ensures r.Some? <==> username in db && db[username].password == password
      ensures r.Some? ==> r.value == db[username] && r.value.password == password
    {
      if username !in db then None
      else
        var user := db[username];
        if user.password != password then None else Some(user)
    }

    /**
     * `updateUserProfile`, as the code is written: rejects `newUsername`
     * whenever it is already a key, even when that key maps to `user`
     * itself. Otherwise sets the user's username, password and email in
     * place and maps `newUsername` to it; every existing key, the user's
     * old name included, keeps the object it had.
     */
    method UpdateUserProfile(user: User, newUsername: string, newPassword: string, newEmail: string)
      returns (ok: bool)
      modifies this, user`username, user`password, user`email
      ensures ok <==> newUsername !in old(db)
      ensures !ok ==> db == old(db) && unchanged(user)
      ensures ok ==> user.username == newUsername && user.password == newPassword && user.email == newEmail
      ensures ok ==> db == old(db)[newUsername := user]
      ensures ok ==> db.Keys == old(db).Keys + {newUsername} &&
                     forall name :: name in old(db) ==> db[name] == old(db)[name]
      ensures ok ==> LoginUser(newUsername, newPassword) == Some(user)
    {
      if newUsername in db {
        return false;
      }
      user.username := newUsername;
      user.password := newPassword;
      user.email := newEmail;
      db := db[newUsername := user];
      return true;
    }

    /**
     * `updateUserProfile` with the check its comment describes (the new
     * name is refused only when it is taken by another user), and with the
     * entry under the user's old name dropped, so that each key stays its
     * user's username, as the comment on the map field says.
     */
    method UpdateUserProfileRekeyed(user: User, newUsername: string, newPassword: string, newEmail: string)
      returns (ok: bool)
      requires Keyed()
      modifies this, user`username, user`password, user`email
      ensures ok <==> old(newUsername !in db || db[newUsername] == user)
      ensures !ok ==> db == old(db) && unchanged(user)
      ensures ok ==> user.username == newUsername && user.password == newPassword && user.email == newEmail
      ensures ok ==> var before := old(db);
                     db == (map name | name in before && before[name] != user :: before[name])[newUsername := user]
      ensures ok ==> LoginUser(newUsername, newPassword) == Some(user)
      ensures Keyed()
    {
      if newUsername in db && db[newUsername] != user {
        return false;
      }
      var oldName := user.username;
      var rest := if oldName in db && db[oldName] == user then db - {oldName} else db;
      assert rest == map name | name in db && db[name] != user :: db[name];
      user.username := newUsername;
      user.password := newPassword;
      user.email := newEmail;
      db := rest[newUsername := user];
      return true;
    }
  }
}
