/** Values shared by every route handler: optional request fields, record ids
    and the signed-in session. */
module Common {

  datatype Option<+T> = None | Some(value: T)

  /** Primary keys. The database hands them out in insertion order, so
      ascending id order is the order in which the rows were written. */
  type Id = nat

  /** JavaScript truthiness of an optional string field: absent and "" are falsy. */
  predicate Present(s: Option<string>) {
    s.Some? && s.value != ""
  }

  /** JavaScript truthiness of an optional number field: absent and 0 are falsy. */
  predicate NonZero(n: Option<int>) {
    n.Some? && n.value != 0
  }

  /** The user object of a next-auth session; every field may be missing. */
  datatype SessionUser = SessionUser(id: Option<Id>, name: Option<string>, email: Option<string>, role: Option<string>)

  /** `None` is "no session". */
  type Session = Option<SessionUser>

  /** The role test shared by the admin routes and the header:
      `session?.user?.role === 'ADMIN'`. */
  predicate IsAdmin(session: Session) {
    session.Some? && session.value.role == Some("ADMIN")
  }

  /** `session?.user?.id` when it is truthy. */
  function SignedInUser(session: Session): (r: Option<Id>)
    ensures r.Some? <==> session.Some? && session.value.id.Some?
    ensures r.Some? ==> r.value == session.value.id.value
  {
    if session.Some? then session.value.id else None
  }
}
