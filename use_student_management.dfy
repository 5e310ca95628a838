/**
 * useStudentManagement: the student list shown to staff, its client-side
 * search, the list refresh and the confirmed delete. Requests are replaced
 * by their outcomes, which are parameters; handleLogout is the session's
 * own logout.
 */
module UseStudentManagement {
  import opened Wrappers
  import opened Text
  import opened Lists
  import opened JsValues
  import opened UseAuth

  /** A listed student: the fields the search reads. */
  datatype StudentItem = StudentItem(id: int, fullName: string, email: string)

  const SessionExpired: string := "Session expired. Please log in again."
  const FetchFailed: string := "Failed to fetch students. Please ensure the backend is running."
  const Deleted: string := "Student deleted successfully!"
  const DeleteFailed: string := "Failed to delete student"

  /** The search test for an already lower-cased term. */
  predicate Matches(s: StudentItem, term: string) {
    Contains(Lower(s.fullName), term) || Contains(Lower(s.email), term) || Contains(IntToString(s.id), term)
  }

  /** handleSearch's list: everything for an empty term, otherwise the matching students in their order. */
  function SearchList(all: seq<StudentItem>, input: string): (r: seq<StudentItem>)
    ensures Lower(input) == [] ==> r == all
    ensures Lower(input) != [] ==> r == Filter(all, s => Matches(s, Lower(input)))
    ensures forall k :: 0 <= k < |r| ==> r[k] in all && (Lower(input) == [] || Matches(r[k], Lower(input)))
    ensures forall k :: 0 <= k < |all| && (Lower(input) == [] || Matches(all[k], Lower(input))) ==> all[k] in r
  {
    var term := Lower(input);
    if term == [] then all else Filter(all, s => Matches(s, term))
  }

  /** The search ignores case: an upper-case term finds what its lower-case form finds. */
  lemma SearchIgnoresCase(all: seq<StudentItem>, input: string)
    ensures SearchList(all, Upper(input)) == SearchList(all, Lower(input))
  {
    assert Lower(Upper(input)) == Lower(Lower(input));
    LowerIdempotent(input);
  }

  /** A student's own id, typed into the box, finds that student. */
  lemma SearchById(all: seq<StudentItem>, k: nat)
    requires k < |all| && all[k].id >= 0
    ensures all[k] in SearchList(all, IntToString(all[k].id))
  {
    var text := IntToString(all[k].id);
    assert forall j :: 0 <= j < |text| ==> '0' <= text[j] <= '9';
    assert Lower(text) == text;
    assert OccursAt(text, text, 0);
    ContainsAt(text, text);
  }

  /** The message an unsuccessful delete throws, by precedence 401, 403, 404, server message, fallback. */
  function DeleteError<T>(h: HttpOutcome<T>): (r: string)
    ensures Status(h) == Some(401) ==> r == SessionExpired
    ensures Status(h) == Some(403) ==> r == "You don't have permission to delete students."
    ensures Status(h) == Some(404) ==> r == "Student not found"
    ensures Status(h) !in {Some(401), Some(403), Some(404)} && TruthyOpt(ServerMessage(h)) ==> r == ToJsString(ServerMessage(h).value)
    ensures Status(h) !in {Some(401), Some(403), Some(404)} && !TruthyOpt(ServerMessage(h)) ==> r == DeleteFailed
  {
    if Status(h) == Some(401) then SessionExpired
    else if Status(h) == Some(403) then "You don't have permission to delete students."
    else if Status(h) == Some(404) then "Student not found"
    else if TruthyOpt(ServerMessage(h)) then ToJsString(ServerMessage(h).value)
    else DeleteFailed
  }

  class StudentManagement {
    var students: seq<StudentItem>
    var allStudents: seq<StudentItem>
    var loading: bool
    var searchTerm: string
    const auth: Auth

    constructor (auth: Auth)
      ensures this.auth == auth
      ensures students == [] && allStudents == [] && !loading && searchTerm == ""
    {
      this.auth := auth;
      students := [];
      allStudents := [];
      loading := false;
      searchTerm := "";
    }

    /** fetchStudents: both lists become the response, whatever the search term; 401 logs out. */
    method FetchStudents(outcome: HttpOutcome<seq<StudentItem>>) returns (r: Settled)
      modifies this, auth, auth.storage
      ensures !loading && searchTerm == old(searchTerm)
      ensures outcome.Resolved? ==> r == Fulfilled(None) && students == outcome.data && allStudents == outcome.data
      ensures outcome.Resolved? ==> unchanged(auth) && auth.storage.items == old(auth.storage.items)
      ensures !outcome.Resolved? ==> students == old(students) && allStudents == old(allStudents)
      ensures Status(outcome) == Some(401) ==> r == Thrown(SessionExpired) && !auth.isAuthenticated && auth.storage.CurrentUser().None?
      ensures !outcome.Resolved? && Status(outcome) != Some(401) ==>
        r == Thrown(FetchFailed) && unchanged(auth) && auth.storage.items == old(auth.storage.items)
    {
      loading := true;
      if outcome.Resolved? {
        students := outcome.data;
        allStudents := outcome.data;
        r := Fulfilled(None);
      } else if Status(outcome) == Some(401) {
        auth.HandleLogout();
        r := Thrown(SessionExpired);
      } else {
        r := Thrown(FetchFailed);
      }
      loading := false;
    }

    /** handleSearch: the term is stored lower-cased and the list re-filtered from the full list. */
    method HandleSearch(input: string)
      modifies this
      ensures searchTerm == Lower(input)
      ensures students == SearchList(allStudents, input)
      ensures allStudents == old(allStudents) && loading == old(loading)
    {
      var term := Lower(input);
      searchTerm := term;
      if term == [] {
        students := allStudents;
      } else {
        students := Filter(allStudents, s => Matches(s, term));
      }
    }

    /**
     * handleDelete: nothing happens without confirmation; a successful
     * DELETE refetches the list before reporting success. A refetch failure
     * is an Error without a response, so it is reported as a plain delete
     * failure.
     */
    method HandleDelete(confirmed: bool, deletion: HttpOutcome<()>, refetch: HttpOutcome<seq<StudentItem>>)
      returns (r: Settled)
      modifies this, auth, auth.storage
      ensures !confirmed ==> r == Fulfilled(None) && unchanged(this) && unchanged(auth) && auth.storage.items == old(auth.storage.items)
      ensures confirmed ==> !loading && searchTerm == old(searchTerm)
      ensures confirmed && deletion.Resolved? && refetch.Resolved? ==>
        r == Fulfilled(Some(Deleted)) && students == refetch.data && allStudents == refetch.data
        && unchanged(auth) && auth.storage.items == old(auth.storage.items)
      ensures confirmed && deletion.Resolved? && !refetch.Resolved? ==>
        r == Thrown(DeleteFailed) && students == old(students) && allStudents == old(allStudents)
      ensures confirmed && deletion.Resolved? && Status(refetch) == Some(401) ==>
        !auth.isAuthenticated && auth.storage.CurrentUser().None?
      ensures confirmed && deletion.Resolved? && !refetch.Resolved? && Status(refetch) != Some(401) ==>
        unchanged(auth) && auth.storage.items == old(auth.storage.items)
      ensures confirmed && !deletion.Resolved? ==> r == Thrown(DeleteError(deletion))
      ensures confirmed && !deletion.Resolved? ==> students == old(students) && allStudents == old(allStudents)
      ensures confirmed && !deletion.Resolved? && Status(deletion) == Some(401) ==> !auth.isAuthenticated && auth.storage.CurrentUser().None?
      ensures (confirmed && !deletion.Resolved? && Status(deletion) != Some(401)) ==> unchanged(auth) && auth.storage.items == old(auth.storage.items)
    {
      if !confirmed {
        return Fulfilled(None);
      }
      loading := true;
      if deletion.Resolved? {
        var fetched := FetchStudents(refetch);
        if fetched.Fulfilled? {
          r := Fulfilled(Some(Deleted));
        } else {
          r := Thrown(DeleteFailed);
        }
      } else {
        if Status(deletion) == Some(401) {
          auth.HandleLogout();
        }
        r := Thrown(DeleteError(deletion));
      }
      loading := false;
    }
  }
}
