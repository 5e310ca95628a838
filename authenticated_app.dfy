/**
 * AuthenticatedApp: the interface chosen from the caller's roles, the
 * mount-time fetch, the combined loading flag, and how submit and delete
 * outcomes reach the message banners.
 */
module AuthenticatedApp {
  import opened Wrappers
  import opened Text
  import opened JsValues
  import opened UseAuth
  import opened UseMessages
  import UseStudentManagement
  import UseProfileForm

  datatype Interface = SelfProfile | Dashboard

  /** hasRole('USER') && !hasRole('MODERATOR') && !hasRole('ADMIN') selects the profile section. */
  function InterfaceFor(user: Option<Json>): (r: Interface)
    ensures r == SelfProfile <==> Holds(user, "USER") && !Holds(user, "MODERATOR") && !Holds(user, "ADMIN")
  {
    if ProfileOnly(user) then SelfProfile else Dashboard
  }

  /** A user with no role at all, or with no user object, gets the dashboard. */
  lemma NoRoleGetsDashboard(fields: map<string, Json>)
    requires "roles" in fields && fields["roles"] == JArr([])
    ensures InterfaceFor(Some(JObj(fields))) == Dashboard
    ensures InterfaceFor(None) == Dashboard
  {
  }

  /** The mount effect's test: a user whose roles include ROLE_ADMIN or ROLE_MODERATOR. */
  predicate FetchOnMount(user: Option<Json>) {
    TruthyOpt(user)
    && (Includes(Field(user, "roles"), "ROLE_ADMIN") == Answer(true) || Includes(Field(user, "roles"), "ROLE_MODERATOR") == Answer(true))
  }

  /** The mount fetch happens exactly for the callers hasRole calls admin or moderator. */
  lemma FetchOnMountIsPrivilege(user: Option<Json>)
    ensures FetchOnMount(user) <==> Holds(user, "ADMIN") || Holds(user, "MODERATOR")
  {
    assert RoleName("ADMIN") == "ROLE_ADMIN";
    assert RoleName("MODERATOR") == "ROLE_MODERATOR";
  }

  /** A fetching caller is never a profile-only caller. */
  lemma FetchersSeeDashboard(user: Option<Json>)
    requires FetchOnMount(user)
    ensures InterfaceFor(user) == Dashboard
  {
    FetchOnMountIsPrivilege(user);
  }

  /** handleFormSubmit and handleStudentDelete: a returned value goes to showSuccess, an error to showError. */
  method Report(m: Messages, s: Settled)
    modifies m
    ensures s.Fulfilled? ==> m.success == s.value && m.error == Some("")
    ensures s.Thrown? ==> m.error == Some(s.message) && m.success == Some("")
    ensures m.Exclusive()
  {
    match s
    case Fulfilled(v) => m.ShowSuccess(v);
    case Thrown(e) => m.ShowError(Some(e));
  }

  /** A cancelled delete returns nothing: no banner is shown and any error banner is cleared. */
  method ReportCancelledDelete(m: Messages)
    modifies m
    ensures !Shown(m.success) && !Shown(m.error)
  {
    Report(m, Fulfilled(None));
  }

  /** The component: the message banners and the two hooks, the profile hook refetching through the list hook. */
  class Shell {
    const messages: Messages
    const students: UseStudentManagement.StudentManagement
    const profile: UseProfileForm.Profile

    constructor (messages: Messages, students: UseStudentManagement.StudentManagement, profile: UseProfileForm.Profile)
      requires profile.students == students
      ensures this.messages == messages && this.students == students && this.profile == profile
      ensures Wired()
    {
      this.messages := messages;
      this.students := students;
      this.profile := profile;
    }

    /** The profile hook's fetchStudents is the list hook's. */
    predicate Wired()
      reads this, profile
    {
      profile.students == students
    }

    /** const loading = studentsLoading || formLoading: the flag handed to both views. */
    function Loading(): (r: bool)
      reads this, students, profile
      ensures r <==> students.loading || profile.loading
    {
      students.loading || profile.loading
    }

    /**
     * The mount effect: a caller whose roles include ROLE_ADMIN or
     * ROLE_MODERATOR gets the list fetched, and a failure's message goes to
     * the error banner; the list's loading flag is cleared either way.
     */
    method LoadStudents(user: Option<Json>, outcome: HttpOutcome<seq<UseStudentManagement.StudentItem>>)
      modifies messages, students, students.auth, students.auth.storage
      ensures !FetchOnMount(user) ==> unchanged(messages) && unchanged(students) && Loading() == old(Loading())
      ensures FetchOnMount(user) ==> !students.loading && profile.loading == old(profile.loading)
      ensures FetchOnMount(user) && !old(profile.loading) ==> !Loading()
      ensures FetchOnMount(user) && outcome.Resolved? ==> students.students == outcome.data && unchanged(messages)
      ensures FetchOnMount(user) && !outcome.Resolved? ==>
        messages.success == Some("") &&
        messages.error == Some(if Status(outcome) == Some(401) then UseStudentManagement.SessionExpired else UseStudentManagement.FetchFailed)
    {
      if FetchOnMount(user) {
        var r := students.FetchStudents(outcome);
        if r.Thrown? {
          messages.ShowError(Some(r.message));
        }
      }
    }

    /**
     * handleFormSubmit: the awaited handleSubmit's message goes to the
     * success banner, its error to the error banner. An accepted form leaves
     * the form's loading flag cleared and never raises the list's; the
     * banner it ends with is the one its route and outcomes call for.
     */
    method HandleFormSubmit(today: int, request: HttpOutcome<()>, refetch: HttpOutcome<seq<UseStudentManagement.StudentItem>>)
      returns (settled: Settled)
      requires Wired()
      modifies messages, profile, profile.auth, profile.auth.storage, students, students.auth, students.auth.storage
      ensures settled.Fulfilled? ==> messages.success == settled.value && messages.error == Some("")
      ensures settled.Thrown? ==> messages.error == Some(settled.message) && messages.success == Some("")
      ensures messages.Exclusive()
      ensures UseProfileForm.ValidateProfile(old(profile.form), today).Some? ==>
        settled == Thrown(UseProfileForm.Message(UseProfileForm.ValidateProfile(old(profile.form), today).value))
        && Loading() == old(Loading())
      ensures UseProfileForm.ValidateProfile(old(profile.form), today).None? ==> !profile.loading
      ensures students.loading ==> old(students.loading)
      ensures UseProfileForm.ValidateProfile(old(profile.form), today).None? && !old(students.loading) ==> !Loading()
      // an accepted form: the banner for each route and outcome
      ensures UseProfileForm.ValidateProfile(old(profile.form), today).None? && !request.Resolved? ==>
        messages.error == Some(UseProfileForm.SubmitError(request)) && messages.success == Some("")
      ensures UseProfileForm.ValidateProfile(old(profile.form), today).None? && ProfileOnly(old(profile.auth.currentUser))
              && request.Resolved? ==>
        messages.success == Some(UseProfileForm.ProfileUpdated) && messages.error == Some("")
        && profile.auth.currentUser.Some? && profile.form == UseProfileForm.LoadedForm(profile.auth.currentUser.value)
      ensures UseProfileForm.ValidateProfile(old(profile.form), today).None? && !ProfileOnly(old(profile.auth.currentUser))
              && request.Resolved? && refetch.Resolved? ==>
        messages.success == Some(UseProfileForm.SavedText(TruthyOpt(old(profile.editingStudent)))) && messages.error == Some("")
        && profile.form == UseProfileForm.ResetForm && students.students == refetch.data
      ensures UseProfileForm.ValidateProfile(old(profile.form), today).None? && !ProfileOnly(old(profile.auth.currentUser))
              && request.Resolved? && !refetch.Resolved? ==>
        messages.error == Some(if Status(refetch) == Some(401) then UseStudentManagement.SessionExpired else UseStudentManagement.FetchFailed)
        && messages.success == Some("")
    {
      var sent;
      settled, sent := profile.HandleSubmit(today, request, refetch);
      Report(messages, settled);
    }

    /**
     * handleStudentDelete: the awaited handleDelete's message goes to the
     * success banner, its error to the error banner. A confirmed delete
     * clears the list's loading flag and does not touch the form's.
     */
    method HandleStudentDelete(confirmed: bool, deletion: HttpOutcome<()>, refetch: HttpOutcome<seq<UseStudentManagement.StudentItem>>)
      returns (settled: Settled)
      modifies messages, students, students.auth, students.auth.storage
      ensures settled.Fulfilled? ==> messages.success == settled.value && messages.error == Some("")
      ensures settled.Thrown? ==> messages.error == Some(settled.message) && messages.success == Some("")
      ensures messages.Exclusive()
      ensures !confirmed ==> !Shown(messages.success) && !Shown(messages.error) && unchanged(students)
      ensures confirmed && deletion.Resolved? && refetch.Resolved? ==>
        messages.success == Some(UseStudentManagement.Deleted) && students.students == refetch.data
      ensures confirmed && deletion.Resolved? && !refetch.Resolved? ==> messages.error == Some(UseStudentManagement.DeleteFailed)
      ensures confirmed && !deletion.Resolved? ==> messages.error == Some(UseStudentManagement.DeleteError(deletion))
      ensures confirmed ==> !students.loading && profile.loading == old(profile.loading)
      ensures confirmed && !old(profile.loading) ==> !Loading()
      ensures !confirmed ==> Loading() == old(Loading())
    {
      settled := students.HandleDelete(confirmed, deletion, refetch);
      Report(messages, settled);
    }
  }
}
