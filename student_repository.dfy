/**
 * StudentRepository: the derived and @Query finders over the student
 * table, stated on the table as a map from id to row. A query without
 * ORDER BY is taken to return rows in ascending id order.
 */
module StudentRepository {
  import opened Wrappers
  import opened Text
  import opened Ids
  import opened Lists
  import opened StudentModel

  type Store = map<int, StudentRow>

  /** Some stored student has exactly this email. */
  predicate EmailTaken(store: Store, email: string) {
    exists id :: id in store && store[id].email == email
  }

  /** findByEmail: the id of the student with that email, if there is one. */
  function FindByEmail(store: Store, email: string): (r: Option<int>)
    ensures r.Some? <==> EmailTaken(store, email)
    ensures r.Some? ==> r.value in store && store[r.value].email == email
    ensures r.Some? && UniqueEmails(store) ==> forall id :: id in store && store[id].email == email ==> id == r.value
  {
    var ids := set id | id in store && store[id].email == email;
    assert forall id :: id in store && store[id].email == email ==> id in ids;
    if ids == {} then None else Some(Least(ids))
  }

  /** The @Query of findByKeyword: lower(name) or lower(email) contains lower(keyword). */
  predicate KeywordMatch(row: StudentRow, keyword: string) {
    Contains(Lower(row.name), Lower(keyword)) || Contains(Lower(row.email), Lower(keyword))
  }

  /** The keyword's case does not matter: it is lower-cased before the comparison. */
  lemma KeywordMatchIgnoresCase(row: StudentRow, keyword: string)
    ensures KeywordMatch(row, Lower(keyword)) <==> KeywordMatch(row, keyword)
  {
    LowerIdempotent(keyword);
  }

  /** The id is stored and its row matches the keyword. */
  predicate Matching(store: Store, keyword: string, id: int) {
    id in store && KeywordMatch(store[id], keyword)
  }

  /** findByKeyword, as the ids of the matching rows. */
  function FindByKeyword(store: Store, keyword: string): (r: seq<int>)
    ensures forall id :: id in r <==> id in store && KeywordMatch(store[id], keyword)
    ensures Increasing(r)
  {
    var all := Ascending(store.Keys);
    var keep := id => Matching(store, keyword, id);
    FilterIncreasing(all, keep);
    FilterMembers(all, keep);
    Filter(all, keep)
  }

  /** countByEnrollmentDate: how many students enrolled on exactly that day. */
  function CountByEnrollmentDate(store: Store, date: int): (r: nat)
    ensures r == 0 <==> forall id :: id in store ==> store[id].enrollmentDate != date
  {
    var ids := set id | id in store && store[id].enrollmentDate == date;
    assert (forall id :: id in store ==> store[id].enrollmentDate != date) ==> ids == {} by {
      if forall id :: id in store ==> store[id].enrollmentDate != date {
        assert forall id :: id !in ids;
      }
    }
    assert forall id :: id in store && store[id].enrollmentDate == date ==> id in ids;
    |ids|
  }

  /** countByEnrollmentDateBetween: BETWEEN includes both bounds. */
  function CountByEnrollmentDateBetween(store: Store, start: int, end: int): (r: nat)
    ensures r == 0 <==> forall id :: id in store ==> !(start <= store[id].enrollmentDate <= end)
  {
    var ids := set id | id in store && start <= store[id].enrollmentDate <= end;
    assert (forall id :: id in store ==> !(start <= store[id].enrollmentDate <= end)) ==> ids == {} by {
      if forall id :: id in store ==> !(start <= store[id].enrollmentDate <= end) {
        assert forall id :: id !in ids;
      }
    }
    assert forall id :: id in store && start <= store[id].enrollmentDate <= end ==> id in ids;
    |ids|
  }

  /** existsByEmailAndIdNot: a student other than `id` has exactly this email. */
  predicate ExistsByEmailAndIdNot(store: Store, email: string, id: int) {
    exists j :: j in store && j != id && store[j].email == email
  }

  /** A one-day range counts the same students as the single-day count: both bounds are inclusive. */
  lemma BetweenSingleDay(store: Store, date: int)
    ensures CountByEnrollmentDateBetween(store, date, date) == CountByEnrollmentDate(store, date)
  {
    assert (set id | id in store && date <= store[id].enrollmentDate <= date)
        == (set id | id in store && store[id].enrollmentDate == date);
  }

  /** An empty range (start after end) counts nothing. */
  lemma BetweenEmpty(store: Store, start: int, end: int)
    requires end < start
    ensures CountByEnrollmentDateBetween(store, start, end) == 0
  {
    assert (set id | id in store && start <= store[id].enrollmentDate <= end) == {};
  }

  /** Splitting a range at any day splits the count; no day is counted twice or missed. */
  lemma BetweenSplit(store: Store, start: int, mid: int, end: int)
    requires start <= mid < end
    ensures CountByEnrollmentDateBetween(store, start, end)
         == CountByEnrollmentDateBetween(store, start, mid) + CountByEnrollmentDateBetween(store, mid + 1, end)
  {
    var all := set id | id in store && start <= store[id].enrollmentDate <= end;
    var low := set id | id in store && start <= store[id].enrollmentDate <= mid;
    var high := set id | id in store && mid + 1 <= store[id].enrollmentDate <= end;
    assert all == low + high;
    assert low !! high;
  }

  /** existsByEmailAndIdNot is the email check with the record's own id excluded. */
  lemma ExistsByEmailAndIdNotExcludesOwn(store: Store, email: string, id: int)
    ensures ExistsByEmailAndIdNot(store, email, id) ==> EmailTaken(store, email)
    ensures id !in store ==> (ExistsByEmailAndIdNot(store, email, id) <==> EmailTaken(store, email))
    ensures UniqueEmails(store) && id in store && store[id].email == email ==> !ExistsByEmailAndIdNot(store, email, id)
  {
  }
}
