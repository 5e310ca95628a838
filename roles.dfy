/** The role names of the back end and the normalisation of role strings. */
module Roles {
  import opened Wrappers
  import opened Text

  /** ERole: the role names stored in the roles table. */
  datatype ERole = RoleUser | RoleModerator | RoleAdmin

  function Name(e: ERole): string {
    match e
    case RoleUser => "ROLE_USER"
    case RoleModerator => "ROLE_MODERATOR"
    case RoleAdmin => "ROLE_ADMIN"
  }

  /** ERole.valueOf: an exact, case-sensitive name match; None where Java throws IllegalArgumentException. */
  function ValueOf(s: string): (r: Option<ERole>)
    ensures r.Some? ==> Name(r.value) == s
    ensures r.None? ==> forall e: ERole :: Name(e) != s
  {
    if s == "ROLE_USER" then Some(RoleUser)
    else if s == "ROLE_MODERATOR" then Some(RoleModerator)
    else if s == "ROLE_ADMIN" then Some(RoleAdmin)
    else None
  }

  /** A role string with the "ROLE_" prefix ensured, as UserStudentService does before valueOf. */
  function WithPrefix(s: string): (r: string)
    ensures StartsWith(r, "ROLE_")
    ensures StartsWith(s, "ROLE_") ==> r == s
  {
    if StartsWith(s, "ROLE_") then s else "ROLE_" + s
  }

  /** The role a request string names, once prefixed; None for unknown names. */
  function Parse(s: string): Option<ERole> {
    ValueOf(WithPrefix(s))
  }

  /** "X" and "ROLE_X" name the same role, unless X itself already starts with "ROLE_". */
  lemma BareAndPrefixedAgree(x: string)
    requires !StartsWith(x, "ROLE_")
    ensures Parse(x) == Parse("ROLE_" + x)
  {
    assert StartsWith("ROLE_" + x, "ROLE_");
  }

  /** Every role is named by its bare form, e.g. "ADMIN", and by its full name. */
  lemma ParseNames(e: ERole)
    ensures Parse(Name(e)) == Some(e)
    ensures Parse(Name(e)[5..]) == Some(e)
  {
    match e
    case RoleUser =>
      assert Name(e)[5..] == "USER";
      assert !StartsWith("USER", "ROLE_");
      assert WithPrefix("USER") == "ROLE_USER";
    case RoleModerator =>
      assert Name(e)[5..] == "MODERATOR";
      assert "MODERATOR"[0] != "ROLE_"[0];
      assert !StartsWith("MODERATOR", "ROLE_");
      assert WithPrefix("MODERATOR") == "ROLE_MODERATOR";
    case RoleAdmin =>
      assert Name(e)[5..] == "ADMIN";
      assert "ADMIN"[0] != "ROLE_"[0];
      assert !StartsWith("ADMIN", "ROLE_");
      assert WithPrefix("ADMIN") == "ROLE_ADMIN";
  }

  /** Lower-case names such as "user", which the add-user form sends, are unknown to valueOf. */
  lemma LowerCaseIsUnknown()
    ensures Parse("user") == None
  {
    assert !StartsWith("user", "ROLE_");
    assert WithPrefix("user") == "ROLE_user";
  }
}
