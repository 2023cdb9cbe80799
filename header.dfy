/** The two values the page header derives from the session
    (app/components/Header.tsx): the admin flag and the name it greets. */
module Header {

  import opened Common

  /** `s.split('@')[0]`: the text before the first `@`, all of `s` when it
      has none. */
  function BeforeAt(s: string): (r: string)
    ensures |r| <= |s| && r == s[..|r|]
    ensures '@' !in r
    ensures |r| < |s| ==> s[|r|] == '@'
  {
    if s == [] || s[0] == '@' then []
    else
      var rest := BeforeAt(s[1..]);
      assert s[..|rest| + 1] == [s[0]] + s[1..][..|rest|];
      [s[0]] + rest
  }

  /** `session?.user?.name || session?.user?.email?.split('@')[0] || 'User'`. */
  function DisplayName(session: Session): (n: string)
    ensures n != ""
    ensures session.Some? && Present(session.value.name) ==> n == session.value.name.value
    ensures session.Some? && !Present(session.value.name) && session.value.email.Some? && BeforeAt(session.value.email.value) != "" ==>
              n == BeforeAt(session.value.email.value)
    ensures session.None? || (!Present(session.value.name) && (session.value.email.None? || BeforeAt(session.value.email.value) == "")) ==>
              n == "User"
  {
    if session.None? then "User"
    else if Present(session.value.name) then session.value.name.value
    else if session.value.email.Some? && BeforeAt(session.value.email.value) != "" then BeforeAt(session.value.email.value)
    else "User"
  }

  /** An address such as `jane@example.com` greets `jane`. */
  lemma {:induction false} LocalPart(local: string, domain: string)
    requires '@' !in local
    ensures BeforeAt(local + "@" + domain) == local
  {
    var s := local + "@" + domain;
    if local == [] {
      assert s[0] == '@';
    } else {
      assert s[0] == local[0] && local[0] in local;
      assert s[1..] == local[1..] + "@" + domain;
      LocalPart(local[1..], domain);
    }
  }

  /** The header's admin flag is `Common.IsAdmin`; the comparison is exact,
      so a lowercase "admin" role shows no admin link. */
  lemma AdminFlagIsExact(session: Session)
    ensures session.Some? && session.value.role == Some("admin") ==> !IsAdmin(session)
    ensures IsAdmin(session) <==> session.Some? && session.value.role.Some? && session.value.role.value == "ADMIN"
  {
  }
}
