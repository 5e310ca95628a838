/**
 * StudentService: the student table's create, update, delete and bulk
 * operations. Each runs in a transaction, so an exception leaves the table
 * as it was. The table assigns ids from a counter (IDENTITY generation) and
 * enforces its unique email column on every save.
 */
module StudentService {
  import opened Wrappers
  import opened Text
  import opened Ids
  import opened Lists
  import opened Exceptions
  import opened StudentModel
  import opened StudentRepository

  /** The column name carried by the database error of the unique email constraint. */
  const EmailConstraint: string := "email"

  function DuplicateMessage(email: string): string {
    "Student with email '" + email + "' already exists."
  }

  function NotFoundMessage(id: int): string {
    "Student not found with id: " + IntToString(id)
  }

  const SomeNotFoundMessage: string := "One or more students not found"

  /** Every stored id is below the next generated id. */
  predicate Fresh(store: Store, nextId: int) {
    forall id :: id in store ==> id < nextId
  }

  /** save: the unique email constraint is checked against every other row. */
  function SaveRow(store: Store, id: int, row: StudentRow): (r: Result<Store, Exception>)
    ensures r.Ok? <==> !ExistsByEmailAndIdNot(store, row.email, id)
    ensures r.Ok? ==> r.value == store[id := row]
    ensures r.Err? ==> r.error == DataIntegrityViolation(EmailConstraint)
    ensures r.Ok? && UniqueEmails(store) ==> UniqueEmails(r.value)
  {
    if ExistsByEmailAndIdNot(store, row.email, id) then Err(DataIntegrityViolation(EmailConstraint))
    else Ok(store[id := row])
  }

  /** The request's Student: the id the client sent (null unless given) and its field values. */
  datatype NewStudent = NewStudent(id: Option<int>, row: StudentRow)

  /** save merges an entity whose id names a stored row over that row; any other entity is inserted. */
  predicate Merges(store: Store, s: NewStudent) {
    s.id.Some? && s.id.value in store
  }

  /** The id save stores the entity under: its own when it merges, else the next generated one. */
  function Target(store: Store, nextId: int, s: NewStudent): int {
    if Merges(store, s) then s.id.value else nextId
  }

  /** The counter after a save: only an insert draws an id. */
  function NextAfter(store: Store, nextId: int, s: NewStudent): int {
    if Merges(store, s) then nextId else nextId + 1
  }

  /** What saveAll leaves: the table, the id each entity was saved under, and the counter. */
  datatype Saved = Saved(store: Store, ids: seq<int>, nextId: int)

  /**
   * saveAll: save of each entity in turn, the first clash aborting. What the
   * resulting table holds is stated by SaveAllTable.
   */
  function SaveAll(store: Store, nextId: int, batch: seq<NewStudent>): (r: Result<Saved, Exception>)
    requires Fresh(store, nextId)
    ensures r.Err? ==> r.error == DataIntegrityViolation(EmailConstraint)
    ensures r.Ok? ==> |r.value.ids| == |batch| && nextId <= r.value.nextId && Fresh(r.value.store, r.value.nextId)
    ensures r.Ok? && UniqueEmails(store) ==> UniqueEmails(r.value.store)
    decreases |batch|
  {
    if batch == [] then Ok(Saved(store, [], nextId))
    else
      var b := batch[0];
      var t := Target(store, nextId, b);
      match SaveRow(store, t, b.row)
      case Err(e) => Err(e)
      case Ok(next) =>
        var after := NextAfter(store, nextId, b);
        assert Fresh(next, after);
        match SaveAll(next, after, batch[1..])
        case Err(e) => Err(e)
        case Ok(rest) => Ok(Saved(rest.store, [t] + rest.ids, rest.nextId))
  }

  /** The step of SaveAll, for the keys: the rest's table holds the stored ids and those saved under. */
  lemma SaveAllStepKeys(store: Store, nextId: int, batch: seq<NewStudent>, next: Store, rest: Saved, ids: seq<int>)
    requires batch != []
    requires next == store[Target(store, nextId, batch[0]) := batch[0].row]
    requires ids == [Target(store, nextId, batch[0])] + rest.ids
    requires forall id :: id in rest.store <==> id in next || id in rest.ids
    requires forall id :: id in next && id !in rest.ids ==> id in rest.store && rest.store[id] == next[id]
    ensures forall id :: id in rest.store <==> id in store || id in ids
    ensures forall id :: id in store && id !in ids ==> id in rest.store && rest.store[id] == store[id]
  {
  }

  /** The step of SaveAll, for the ids: a merged entity keeps its id, an inserted one draws a fresh id. */
  lemma SaveAllStepIds(store: Store, nextId: int, batch: seq<NewStudent>, next: Store, rest: Saved, ids: seq<int>)
    requires Fresh(store, nextId) && batch != []
    requires next == store[Target(store, nextId, batch[0]) := batch[0].row]
    requires ids == [Target(store, nextId, batch[0])] + rest.ids && |rest.ids| == |batch| - 1
    requires forall k :: 0 <= k < |batch| - 1 && Merges(next, batch[1..][k]) ==> rest.ids[k] == batch[1..][k].id.value
    requires forall k :: 0 <= k < |batch| - 1 && !Merges(next, batch[1..][k]) ==>
      rest.ids[k] !in next && NextAfter(store, nextId, batch[0]) <= rest.ids[k]
    ensures forall k :: 0 <= k < |batch| && Merges(store, batch[k]) ==> ids[k] == batch[k].id.value
    ensures forall k :: 0 <= k < |batch| && !Merges(store, batch[k]) ==> ids[k] !in store && nextId <= ids[k]
  {
    var t := Target(store, nextId, batch[0]);
    assert forall k :: 1 <= k < |batch| ==> batch[k] == batch[1..][k - 1] && ids[k] == rest.ids[k - 1];
    forall k | 0 <= k < |batch| && !Merges(store, batch[k]) ensures ids[k] !in store && nextId <= ids[k] {
      if k > 0 && Merges(next, batch[k]) {
        assert batch[k].id.value == t;
        assert ids[k] == t;
      }
    }
  }

  /** No entity after the k-th is saved under the k-th's id. */
  predicate LastSaved(ids: seq<int>, k: int) {
    0 <= k < |ids| && forall j :: k < j < |ids| ==> ids[j] != ids[k]
  }

  /** The step of SaveAll, for one row: the k-th entity, when no later one shares its id, is what its row holds. */
  lemma SaveAllStepLastAt(next: Store, t: int, batch: seq<NewStudent>, restIds: seq<int>, restStore: Store, k: int)
    requires batch != [] && t in next && next[t] == batch[0].row && |restIds| == |batch| - 1
    requires forall id :: id in next && id !in restIds ==> id in restStore && restStore[id] == next[id]
    requires forall i {:trigger LastSaved(restIds, i)} :: 0 <= i < |restIds| && LastSaved(restIds, i) ==>
      restIds[i] in restStore && restStore[restIds[i]] == batch[i + 1].row
    requires LastSaved([t] + restIds, k)
    ensures ([t] + restIds)[k] in restStore && restStore[([t] + restIds)[k]] == batch[k].row
  {
    var ids := [t] + restIds;
    if k == 0 {
      assert t !in restIds by {
        forall j | 0 <= j < |restIds| ensures restIds[j] != t {
          assert ids[j + 1] == restIds[j];
        }
      }
    } else {
      assert ids[k] == restIds[k - 1];
      assert LastSaved(restIds, k - 1) by {
        forall j | k - 1 < j < |restIds| ensures restIds[j] != restIds[k - 1] {
          assert ids[j + 1] == restIds[j];
        }
      }
    }
  }

  /** The step of SaveAll, for the rows: each row holds the last entity saved under its id. */
  lemma SaveAllStepLast(store: Store, nextId: int, batch: seq<NewStudent>, next: Store, rest: Saved, ids: seq<int>)
    requires batch != []
    requires next == store[Target(store, nextId, batch[0]) := batch[0].row]
    requires ids == [Target(store, nextId, batch[0])] + rest.ids && |rest.ids| == |batch| - 1
    requires forall id :: id in next && id !in rest.ids ==> id in rest.store && rest.store[id] == next[id]
    requires forall i {:trigger LastSaved(rest.ids, i)} :: 0 <= i < |batch| - 1 && LastSaved(rest.ids, i) ==>
      rest.ids[i] in rest.store && rest.store[rest.ids[i]] == batch[1..][i].row
    ensures forall k {:trigger LastSaved(ids, k)} :: 0 <= k < |batch| && LastSaved(ids, k) ==> ids[k] in rest.store && rest.store[ids[k]] == batch[k].row
  {
    var t := Target(store, nextId, batch[0]);
    assert forall i :: 0 <= i < |batch| - 1 ==> batch[1..][i] == batch[i + 1];
    forall k | 0 <= k < |batch| && LastSaved(ids, k)
      ensures ids[k] in rest.store && rest.store[ids[k]] == batch[k].row
    {
      SaveAllStepLastAt(next, t, batch, rest.ids, rest.store, k);
    }
  }

  /** One step of saveAll that succeeded: the first entity's save, then the rest's saveAll. */
  lemma SaveAllUnfold(store: Store, nextId: int, batch: seq<NewStudent>)
    requires Fresh(store, nextId) && batch != [] && SaveAll(store, nextId, batch).Ok?
    ensures var t := Target(store, nextId, batch[0]);
      && SaveRow(store, t, batch[0].row) == Ok(store[t := batch[0].row])
      && Fresh(store[t := batch[0].row], NextAfter(store, nextId, batch[0]))
      && var rest := SaveAll(store[t := batch[0].row], NextAfter(store, nextId, batch[0]), batch[1..]);
         rest.Ok? && SaveAll(store, nextId, batch).value == Saved(rest.value.store, [t] + rest.value.ids, rest.value.nextId)
  {
  }

  /**
   * The table saveAll leaves: its ids are the stored ones and those saved
   * under, a merged entity keeps its id, an inserted one draws a fresh id, a
   * row no entity names keeps its value, and each row holds the last entity
   * saved under its id.
   */
  lemma {:induction false} SaveAllTable(store: Store, nextId: int, batch: seq<NewStudent>)
    requires Fresh(store, nextId) && SaveAll(store, nextId, batch).Ok?
    ensures var r := SaveAll(store, nextId, batch).value;
      && (forall id :: id in r.store <==> id in store || id in r.ids)
      && (forall id :: id in store && id !in r.ids ==> id in r.store && r.store[id] == store[id])
      && (forall k :: 0 <= k < |batch| && Merges(store, batch[k]) ==> r.ids[k] == batch[k].id.value)
      && (forall k :: 0 <= k < |batch| && !Merges(store, batch[k]) ==> r.ids[k] !in store && nextId <= r.ids[k])
      && (forall k {:trigger LastSaved(r.ids, k)} :: 0 <= k < |batch| && LastSaved(r.ids, k) ==> r.ids[k] in r.store && r.store[r.ids[k]] == batch[k].row)
    decreases |batch|
  {
    if batch != [] {
      SaveAllUnfold(store, nextId, batch);
      var t := Target(store, nextId, batch[0]);
      var next := store[t := batch[0].row];
      var after := NextAfter(store, nextId, batch[0]);
      SaveAllTable(next, after, batch[1..]);
      var rest := SaveAll(next, after, batch[1..]).value;
      SaveAllStepKeys(store, nextId, batch, next, rest, [t] + rest.ids);
      SaveAllStepIds(store, nextId, batch, next, rest, [t] + rest.ids);
      SaveAllStepLast(store, nextId, batch, next, rest, [t] + rest.ids);
    }
  }

  /** No entity of the batch carries an id. */
  predicate AllNew(batch: seq<NewStudent>) {
    forall s :: s in batch ==> s.id.None?
  }

  /** start, start + 1, ..., start + n - 1. */
  function Consecutive(start: int, n: nat): (r: seq<int>)
    ensures |r| == n && forall k :: 0 <= k < n ==> r[k] == start + k
    decreases n
  {
    if n == 0 then [] else [start] + Consecutive(start + 1, n - 1)
  }

  /** Entities without ids draw consecutive ids: the k-th is saved under nextId + k. */
  lemma {:induction false} SaveAllIds(store: Store, nextId: int, batch: seq<NewStudent>)
    requires Fresh(store, nextId) && SaveAll(store, nextId, batch).Ok? && AllNew(batch)
    ensures SaveAll(store, nextId, batch).value.nextId == nextId + |batch|
    ensures SaveAll(store, nextId, batch).value.ids == Consecutive(nextId, |batch|)
    decreases |batch|
  {
    if batch != [] {
      SaveAllUnfold(store, nextId, batch);
      assert !Merges(store, batch[0]);
      var next := store[nextId := batch[0].row];
      assert AllNew(batch[1..]);
      SaveAllIds(next, nextId + 1, batch[1..]);
    }
  }

  /** The k-th entity of a batch without ids is inserted under nextId + k, a row that was free. */
  lemma SaveAllPlace(store: Store, nextId: int, batch: seq<NewStudent>, k: int)
    requires Fresh(store, nextId) && SaveAll(store, nextId, batch).Ok? && AllNew(batch)
    requires 0 <= k < |batch|
    ensures var r := SaveAll(store, nextId, batch).value;
      r.ids[k] == nextId + k && nextId + k !in store && nextId + k in r.store && r.store[nextId + k] == batch[k].row
  {
    var r := SaveAll(store, nextId, batch).value;
    assert r.ids[k] == nextId + k && LastSaved(r.ids, k) by {
      SaveAllIds(store, nextId, batch);
    }
    assert r.ids[k] in r.store && r.store[r.ids[k]] == batch[k].row by {
      SaveAllTable(store, nextId, batch);
    }
  }

  predicate DistinctEmails(batch: seq<NewStudent>) {
    forall i, j :: 0 <= i < j < |batch| ==> batch[i].row.email != batch[j].row.email
  }

  /** saveAll of entities without ids succeeds iff no email in the batch is stored already or repeated within it. */
  lemma {:induction false} SaveAllSucceeds(store: Store, nextId: int, batch: seq<NewStudent>)
    requires Fresh(store, nextId) && AllNew(batch)
    ensures SaveAll(store, nextId, batch).Ok? <==>
      DistinctEmails(batch) && forall k :: 0 <= k < |batch| ==> !EmailTaken(store, batch[k].row.email)
    decreases |batch|
  {
    if batch != [] {
      var b := batch[0];
      var rest := batch[1..];
      assert b in batch && !Merges(store, b);
      assert AllNew(rest) by {
        forall s | s in rest ensures s.id.None? {
          assert s in batch;
        }
      }
      if !EmailTaken(store, b.row.email) {
        var next := store[nextId := b.row];
        assert SaveRow(store, nextId, b.row) == Ok(next);
        assert Fresh(next, nextId + 1);
        assert (forall k :: 0 <= k < |rest| ==> rest[k] == batch[k + 1]);
        SaveAllSucceeds(next, nextId + 1, rest);
        assert SaveAll(store, nextId, batch).Ok? <==> SaveAll(next, nextId + 1, rest).Ok?;
        assert forall e :: EmailTaken(next, e) <==> EmailTaken(store, e) || e == b.row.email by {
          forall e ensures EmailTaken(next, e) <==> EmailTaken(store, e) || e == b.row.email {
            if EmailTaken(store, e) {
              var id :| id in store && store[id].email == e;
              assert id in next && next[id].email == e;
            }
            if e == b.row.email {
              assert nextId in next && next[nextId].email == e;
            }
          }
        }
        if DistinctEmails(batch) && forall k :: 0 <= k < |batch| ==> !EmailTaken(store, batch[k].row.email) {
          assert DistinctEmails(rest);
          forall k | 0 <= k < |rest| ensures !EmailTaken(next, rest[k].row.email) {
            assert rest[k] == batch[k + 1];
          }
        }
        if SaveAll(store, nextId, batch).Ok? {
          forall i, j | 0 <= i < j < |batch| ensures batch[i].row.email != batch[j].row.email {
            if i == 0 {
              assert !EmailTaken(next, rest[j - 1].row.email);
            } else {
              assert batch[i] == rest[i - 1] && batch[j] == rest[j - 1];
            }
          }
          forall k | 0 <= k < |batch| ensures !EmailTaken(store, batch[k].row.email) {
            if k > 0 {
              assert !EmailTaken(next, rest[k - 1].row.email);
            }
          }
        }
      } else {
        assert ExistsByEmailAndIdNot(store, b.row.email, nextId);
      }
    }
  }

  /** The index of the first row of the batch whose email is already stored. */
  function FirstTaken(store: Store, batch: seq<NewStudent>): (r: Option<nat>)
    ensures r.Some? ==> r.value < |batch| && EmailTaken(store, batch[r.value].row.email)
    ensures r.Some? ==> forall k :: 0 <= k < r.value ==> !EmailTaken(store, batch[k].row.email)
    ensures r.None? ==> forall k :: 0 <= k < |batch| ==> !EmailTaken(store, batch[k].row.email)
    decreases |batch|
  {
    if batch == [] then None
    else if EmailTaken(store, batch[0].row.email) then Some(0)
    else
      var rest := FirstTaken(store, batch[1..]);
      assert forall k :: 1 <= k < |batch| ==> batch[k] == batch[1..][k - 1];
      if rest.None? then None else Some(rest.value + 1)
  }

  /** The result of an operation together with the table after it. */
  datatype Outcome<T> = Outcome(result: Result<T, Exception>, store: Store)

  /**
   * addStudent. A Student whose id names a stored row is merged over that
   * row; any other is inserted under the next generated id.
   */
  function Add(store: Store, nextId: int, student: NewStudent): (o: Outcome<int>)
    requires Fresh(store, nextId)
    ensures o.result.Err? <==> EmailTaken(store, student.row.email)
    ensures o.result.Err? ==> o.result.error == DuplicateStudent(DuplicateMessage(student.row.email)) && o.store == store
    ensures o.result.Ok? && Merges(store, student) ==>
      o.result.value == student.id.value && o.store == store[student.id.value := student.row] && o.store.Keys == store.Keys
    ensures o.result.Ok? && !Merges(store, student) ==>
      o.result.value == nextId && nextId !in store && o.store == store[nextId := student.row]
    ensures UniqueEmails(store) ==> UniqueEmails(o.store)
  {
    var email := student.row.email;
    if FindByEmail(store, email).Some? then Outcome(Err(DuplicateStudent(DuplicateMessage(email))), store)
    else
      var t := Target(store, nextId, student);
      var saved := SaveRow(store, t, student.row);
      assert saved.Ok?;
      Outcome(Ok(t), saved.value)
  }

  /** The row updateStudent stores: the three copied fields, through the normalising setters. */
  function UpdatedRow(updated: StudentRow): StudentRow {
    StudentRow(Trim(Java, updated.name), NormaliseEmail(updated.email), updated.enrollmentDate)
  }

  /** updateStudent. */
  function Update(store: Store, id: int, updated: StudentRow): (o: Outcome<StudentRow>)
    ensures id !in store <==> o.result == Err(StudentNotFound(NotFoundMessage(id)))
    ensures id in store ==>
      (o.result == Err(DuplicateStudent(DuplicateMessage(updated.email))) <==>
       store[id].email != updated.email && ExistsByEmailAndIdNot(store, updated.email, id))
    ensures o.result.Err? ==> o.store == store
    ensures o.result.Ok? ==> id in store && o.result.value == UpdatedRow(updated) && o.store == store[id := UpdatedRow(updated)]
    ensures UniqueEmails(store) ==> UniqueEmails(o.store)
  {
    if id !in store then Outcome(Err(StudentNotFound(NotFoundMessage(id))), store)
    else if store[id].email != updated.email && ExistsByEmailAndIdNot(store, updated.email, id) then
      Outcome(Err(DuplicateStudent(DuplicateMessage(updated.email))), store)
    else
      var row := UpdatedRow(updated);
      match SaveRow(store, id, row)
      case Err(e) => Outcome(Err(e), store)
      case Ok(next) => Outcome(Ok(row), next)
  }

  /** deleteStudent. */
  function Delete(store: Store, id: int): (o: Outcome<()>)
    ensures o.result.Err? <==> id !in store
    ensures o.result.Err? ==> o.result.error == StudentNotFound(NotFoundMessage(id)) && o.store == store
    ensures o.result.Ok? ==> o.store == store - {id}
  {
    if id !in store then Outcome(Err(StudentNotFound(NotFoundMessage(id))), store)
    else Outcome(Ok(()), store - {id})
  }

  /** How many stored rows findAllById returns: each found row once. */
  function FoundCount(store: Store, ids: seq<int>): nat {
    |set id | id in ids && id in store|
  }

  /** deleteStudents. */
  function DeleteMany(store: Store, ids: seq<int>): (o: Outcome<()>)
    ensures o.result.Err? ==> o.result.error == StudentNotFound(SomeNotFoundMessage) && o.store == store
    ensures o.result.Ok? ==> o.store == store - (set id | id in ids)
  {
    if FoundCount(store, ids) != |ids| then Outcome(Err(StudentNotFound(SomeNotFoundMessage)), store)
    else Outcome(Ok(()), store - (set id | id in ids))
  }

  /** deleteStudents deletes all or nothing: it succeeds iff the ids are all stored and none is repeated. */
  lemma DeleteManyAllOrNothing(store: Store, ids: seq<int>)
    ensures DeleteMany(store, ids).result.Ok? <==> Distinct(ids) && forall k :: 0 <= k < |ids| ==> ids[k] in store
  {
    var found := set id | id in ids && id in store;
    var all := set id | id in ids;
    DistinctCount(ids);
    assert found <= all;
    assert |found| <= |all| by {
      assert |all - found| == |all| - |found|;
    }
    if FoundCount(store, ids) == |ids| {
      SubsetSameSize(found, all);
      forall k | 0 <= k < |ids| ensures ids[k] in store {
        assert ids[k] in all;
      }
    }
    if Distinct(ids) && forall k :: 0 <= k < |ids| ==> ids[k] in store {
      assert found == all;
    }
  }

  /** addStudents: every email is checked against the table, then the batch is saved as a whole. */
  function AddMany(store: Store, nextId: int, batch: seq<NewStudent>): (o: Outcome<seq<int>>)
    requires Fresh(store, nextId)
    ensures o.result.Err? ==> o.store == store
    ensures (exists k :: 0 <= k < |batch| && EmailTaken(store, batch[k].row.email)) ==>
      o.result.Err? && o.result.error.DuplicateStudent?
    ensures (forall k :: 0 <= k < |batch| ==> !EmailTaken(store, batch[k].row.email)) ==>
      (o.result.Ok? <==> SaveAll(store, nextId, batch).Ok?)
    ensures o.result.Ok? ==>
      && SaveAll(store, nextId, batch).Ok?
      && o.result.value == SaveAll(store, nextId, batch).value.ids
      && o.store == SaveAll(store, nextId, batch).value.store
    ensures UniqueEmails(store) ==> UniqueEmails(o.store)
  {
    var first := FirstTaken(store, batch);
    if first.Some? then Outcome(Err(DuplicateStudent(DuplicateMessage(batch[first.value].row.email))), store)
    else
      match SaveAll(store, nextId, batch)
      case Err(e) => Outcome(Err(e), store)
      case Ok(saved) => Outcome(Ok(saved.ids), saved.store)
  }

  /** A batch of new entities (no ids) lands in fresh rows: the k-th under nextId + k. */
  lemma AddManyInserts(store: Store, nextId: int, batch: seq<NewStudent>)
    requires Fresh(store, nextId) && AddMany(store, nextId, batch).result.Ok? && AllNew(batch)
    ensures var o := AddMany(store, nextId, batch);
      |o.result.value| == |batch| && forall k :: 0 <= k < |batch| ==>
        o.result.value[k] == nextId + k && nextId + k !in store && nextId + k in o.store && o.store[nextId + k] == batch[k].row
  {
    forall k | 0 <= k < |batch|
      ensures SaveAll(store, nextId, batch).value.ids[k] == nextId + k && nextId + k !in store
      ensures nextId + k in SaveAll(store, nextId, batch).value.store
      ensures SaveAll(store, nextId, batch).value.store[nextId + k] == batch[k].row
    {
      SaveAllPlace(store, nextId, batch, k);
    }
  }

  /**
   * addStudents checks the batch only against stored rows: two new rows with
   * the same email pass the check and are refused by the unique constraint
   * instead, as a data integrity error.
   */
  lemma AddManyWithinBatchDuplicate(store: Store, nextId: int, batch: seq<NewStudent>)
    requires Fresh(store, nextId)
    requires AllNew(batch) && forall k :: 0 <= k < |batch| ==> !EmailTaken(store, batch[k].row.email)
    ensures AddMany(store, nextId, batch).result.Ok? <==> DistinctEmails(batch)
    ensures !DistinctEmails(batch) ==> AddMany(store, nextId, batch).result == Err(DataIntegrityViolation(EmailConstraint))
  {
    SaveAllSucceeds(store, nextId, batch);
  }

  /** getAllStudents: every id, newest first. */
  function GetAll(store: Store): (r: seq<int>)
    ensures forall id :: id in r <==> id in store
    ensures Decreasing(r)
    ensures |r| == |store|
  {
    Descending(store.Keys)
  }

  /** searchStudents: a null or blank keyword lists everything; any other keyword is trimmed and matched. */
  function Search(store: Store, keyword: Option<string>): (r: seq<int>)
    ensures keyword.None? || IsBlank(Java, keyword.value) ==> r == GetAll(store)
    ensures keyword.Some? && !IsBlank(Java, keyword.value) ==>
      Increasing(r) && forall id :: id in r <==> id in store && KeywordMatch(store[id], Trim(Java, keyword.value))
  {
    if keyword.None? || IsBlank(Java, keyword.value) then GetAll(store)
    else FindByKeyword(store, Trim(Java, keyword.value))
  }

  /** Keeping the stored email is never a duplicate, and rows that came through the setters are stored as they are. */
  lemma UpdateKeepingEmail(store: Store, id: int, updated: StudentRow)
    requires UniqueEmails(store) && id in store && store[id].email == updated.email
    requires IsTrimmed(Java, updated.name) && NormaliseEmail(updated.email) == updated.email
    ensures Update(store, id, updated) == Outcome(Ok(updated), store[id := updated])
  {
    TrimOfTrimmed(Java, updated.name);
  }

  /** An update copies only the three fields: every other row and the set of ids stay as they were. */
  lemma UpdateTouchesOnlyItsRow(store: Store, id: int, updated: StudentRow)
    ensures Update(store, id, updated).store.Keys == store.Keys
    ensures forall j :: j in store && j != id ==> Update(store, id, updated).store[j] == store[j]
  {
  }

  /** Once the email check has passed, an update is the save of the normalised row. */
  lemma UpdateAfterCheck(store: Store, id: int, input: StudentRow)
    requires id in store && (store[id].email == input.email || !ExistsByEmailAndIdNot(store, input.email, id))
    ensures SaveRow(store, id, UpdatedRow(input)).Err? ==>
      Update(store, id, input) == Outcome(Err(SaveRow(store, id, UpdatedRow(input)).error), store)
    ensures SaveRow(store, id, UpdatedRow(input)).Ok? ==>
      Update(store, id, input) == Outcome(Ok(UpdatedRow(input)), SaveRow(store, id, UpdatedRow(input)).value)
  {
  }

  lemma FreshOverwrite(store: Store, nextId: int, id: int, row: StudentRow)
    requires Fresh(store, nextId) && id in store
    ensures Fresh(store[id := row], nextId)
  {
  }

  /** The service with its table and id counter. */
  class Service {
    var store: Store
    var nextId: int

    ghost predicate Valid()
      reads this
    {
      Fresh(store, nextId) && UniqueEmails(store)
    }

    constructor ()
      ensures Valid() && store == map[]
    {
      store := map[];
      nextId := 1;
    }

    /** addStudent, given the request's Student. */
    method AddStudent(student: NewStudent) returns (r: Result<int, Exception>)
      requires Valid()
      modifies this
      ensures Valid()
      ensures Outcome(r, store) == Add(old(store), old(nextId), student)
      ensures r.Ok? ==> nextId == NextAfter(old(store), old(nextId), student)
      ensures r.Err? ==> nextId == old(nextId)
    {
      if FindByEmail(store, student.row.email).Some? {
        return Err(DuplicateStudent(DuplicateMessage(student.row.email)));
      }
      var target := Target(store, nextId, student);
      var after := NextAfter(store, nextId, student);
      store := store[target := student.row];
      r := Ok(target);
      nextId := after;
    }

    /** updateStudent, given the field values of the request's Student; the stored entity is changed through its setters. */
    method UpdateStudent(id: int, input: StudentRow) returns (r: Result<StudentRow, Exception>)
      requires Valid()
      modifies this
      ensures Valid() && nextId == old(nextId)
      ensures Outcome(r, store) == Update(old(store), id, input)
    {
      var current := store;
      if id !in current {
        return Err(StudentNotFound(NotFoundMessage(id)));
      }
      if current[id].email != input.email && ExistsByEmailAndIdNot(current, input.email, id) {
        return Err(DuplicateStudent(DuplicateMessage(input.email)));
      }
      var row := CopyFields(id, current[id], input);
      var saved := SaveRow(current, id, row);
      UpdateAfterCheck(current, id, input);
      if saved.Err? {
        return Err(saved.error);
      }
      FreshOverwrite(current, nextId, id, row);
      store := saved.value;
      r := Ok(row);
    }

    method DeleteStudent(id: int) returns (r: Result<(), Exception>)
      requires Valid()
      modifies this
      ensures Valid() && nextId == old(nextId)
      ensures Outcome(r, store) == Delete(old(store), id)
    {
      if id !in store {
        return Err(StudentNotFound(NotFoundMessage(id)));
      }
      store := store - {id};
      r := Ok(());
    }

    method DeleteStudents(ids: seq<int>) returns (r: Result<(), Exception>)
      requires Valid()
      modifies this
      ensures Valid() && nextId == old(nextId)
      ensures Outcome(r, store) == DeleteMany(old(store), ids)
    {
      if |set id | id in ids && id in store| != |ids| {
        return Err(StudentNotFound(SomeNotFoundMessage));
      }
      store := store - (set id | id in ids);
      r := Ok(());
    }

    method AddStudents(batch: seq<NewStudent>) returns (r: Result<seq<int>, Exception>)
      requires Valid()
      modifies this
      ensures Valid()
      ensures Outcome(r, store) == AddMany(old(store), old(nextId), batch)
      ensures r.Ok? ==> nextId == SaveAll(old(store), old(nextId), batch).value.nextId
      ensures r.Err? ==> nextId == old(nextId)
    {
      var first := FindFirstTaken(store, batch);
      if first.Some? {
        return Err(DuplicateStudent(DuplicateMessage(batch[first.value].row.email)));
      }
      var saved := SaveAll(store, nextId, batch);
      if saved.Err? {
        return Err(saved.error);
      }
      store := saved.value.store;
      r := Ok(saved.value.ids);
      nextId := saved.value.nextId;
    }
  }

  /**
   * The field copy of updateStudent: the stored entity is loaded and given
   * the request's name, email and enrollment date through its setters.
   */
  method CopyFields(id: int, stored: StudentRow, input: StudentRow) returns (row: StudentRow)
    ensures row == UpdatedRow(input)
    ensures IsTrimmed(Java, row.name) && IsTrimmed(Java, row.email) && Lower(row.email) == row.email
  {
    var existing := new Student.Load(id, stored);
    existing.SetName(Some(input.name));
    existing.SetEmail(Some(input.email));
    existing.SetEnrollmentDate(Some(input.enrollmentDate));
    row := StudentRow(existing.name.value, existing.email.value, existing.enrollmentDate.value);
    TrimIsTrimmed(Java, input.name);
  }

  /** The validation loop of addStudents: findByEmail for each row in turn, stopping at the first stored email. */
  method FindFirstTaken(store: Store, batch: seq<NewStudent>) returns (r: Option<nat>)
    ensures r == FirstTaken(store, batch)
  {
    var i := 0;
    while i < |batch|
      invariant 0 <= i <= |batch|
      invariant forall k :: 0 <= k < i ==> !EmailTaken(store, batch[k].row.email)
    {
      if FindByEmail(store, batch[i].row.email).Some? {
        FirstTakenIsFirst(store, batch, i);
        return Some(i);
      }
      i := i + 1;
    }
    FirstTakenNone(store, batch);
    r := None;
  }

  lemma {:induction false} FirstTakenIsFirst(store: Store, batch: seq<NewStudent>, i: nat)
    requires i < |batch| && EmailTaken(store, batch[i].row.email)
    requires forall k :: 0 <= k < i ==> !EmailTaken(store, batch[k].row.email)
    ensures FirstTaken(store, batch) == Some(i)
    decreases i
  {
    if i > 0 {
      FirstTakenIsFirst(store, batch[1..], i - 1);
    }
  }

  lemma FirstTakenNone(store: Store, batch: seq<NewStudent>)
    requires forall k :: 0 <= k < |batch| ==> !EmailTaken(store, batch[k].row.email)
    ensures FirstTaken(store, batch) == None
  {
  }
}
