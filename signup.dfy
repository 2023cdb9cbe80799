/** Account creation (app/api/auth/signup/route.ts) over the user table. */
module Signup {

  import opened Common

  /** One user row; `password` holds the hash, never the password. */
  datatype User = User(id: Id, name: string, email: string, password: string, role: string)

  /** What the response shows of a user: everything but the password. */
  datatype UserView = UserView(id: Id, name: string, email: string, role: string)

  function View(u: User): (v: UserView)
    ensures v.id == u.id && v.name == u.name && v.email == u.email && v.role == u.role
  {
    UserView(u.id, u.name, u.email, u.role)
  }

  /** `role === 'admin' ? 'admin' : 'user'`. */
  function StoredRole(role: Option<string>): (r: string)
    ensures r == "admin" <==> role == Some("admin")
    ensures r == "user" <==> role != Some("admin")
  {
    if role == Some("admin") then "admin" else "user"
  }

  /** The admin checks compare the session role with "ADMIN", and the session
      carries the stored role: no role signup stores passes them. */
  lemma SignupRoleIsNeverAdmin(role: Option<string>, id: Option<Id>, name: Option<string>, email: Option<string>)
    ensures !IsAdmin(Some(SessionUser(id, name, email, Some(StoredRole(role)))))
  {
    assert StoredRole(role)[0] != 'A';
  }

  /** The role names the rest of the code writes: the seed's `SUPER_ADMIN`,
      and the `USER` and `ADMIN` the role migration rewrites stored roles to. */
  predicate EnumRole(role: string) {
    role == "USER" || role == "ADMIN" || role == "SUPER_ADMIN"
  }

  /** If the role column only takes those names, it refuses every role that
      signup stores, so the create fails. */
  lemma EnumColumnRefusesSignup(role: Option<string>)
    ensures !EnumRole(StoredRole(role))
  {
    var r := StoredRole(role);
    assert r[0] == 'a' || r[0] == 'u';
  }

  ghost predicate UniqueEmails(rows: map<Id, User>) {
    forall a, b :: a in rows && b in rows && rows[a].email == rows[b].email ==> a == b
  }

  ghost predicate WellFormed(rows: map<Id, User>, nextId: Id) {
    (forall k :: k in rows ==> rows[k].id == k && k < nextId)
    && UniqueEmails(rows)
  }

  datatype SignupReply = SignedUp(message: string, user: UserView) | SignupRefused(httpStatus: int, error: string)

  class UserTable {
    var rows: map<Id, User>
    var nextId: Id

    ghost predicate Valid()
      reads this
    {
      WellFormed(rows, nextId)
    }

    constructor ()
      ensures Valid() && rows == map[] && nextId == 0
    {
      rows := map[];
      nextId := 0;
    }

    predicate EmailTaken(email: string)
      reads this
    {
      exists k :: k in rows && rows[k].email == email
    }

    /** POST /api/auth/signup; `hash` stands for the password hash, and
        `roleAccepted` for the values the database's role column takes. A
        create the database refuses throws, and the handler's catch answers
        500. */
    method SignUp(name: Option<string>, email: Option<string>, password: Option<string>, role: Option<string>,
                  hash: string -> string, roleAccepted: string -> bool)
      returns (r: SignupReply)
      requires Valid()
      modifies this
      ensures Valid()
      ensures !(Present(name) && Present(email) && Present(password)) ==>
                r == SignupRefused(400, "Missing required fields") && rows == old(rows) && nextId == old(nextId)
      ensures Present(name) && Present(email) && Present(password) && old(EmailTaken(email.value)) ==>
                r == SignupRefused(400, "User already exists") && rows == old(rows) && nextId == old(nextId)
      ensures Present(name) && Present(email) && Present(password) && !old(EmailTaken(email.value)) && !roleAccepted(StoredRole(role)) ==>
                r == SignupRefused(500, "Internal server error") && rows == old(rows) && nextId == old(nextId)
      ensures Present(name) && Present(email) && Present(password) && !old(EmailTaken(email.value)) && roleAccepted(StoredRole(role)) ==>
                var u := User(old(nextId), name.value, email.value, hash(password.value), StoredRole(role));
                && old(nextId) !in old(rows)
                && rows == old(rows)[old(nextId) := u] && nextId == old(nextId) + 1
                && r == SignedUp("User created successfully", View(u))
    {
      if !(Present(name) && Present(email) && Present(password)) {
        return SignupRefused(400, "Missing required fields");
      }
      if EmailTaken(email.value) {
        return SignupRefused(400, "User already exists");
      }
      var hashed := hash(password.value);
      var stored := StoredRole(role);
      if !roleAccepted(stored) {
        return SignupRefused(500, "Internal server error");
      }
      var u := User(nextId, name.value, email.value, hashed, stored);
      rows := rows[nextId := u];
      nextId := nextId + 1;
      return SignedUp("User created successfully", View(u));
    }
  }
}
