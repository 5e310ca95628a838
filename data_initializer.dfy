/**
 * DataInitializer: at start-up, each of the three roles is saved to the
 * role table unless a row with that name already exists.
 */
module DataInitializer {
  import opened Roles

  /** The role table as the sequence of role names saved so far. */
  class RoleRepository {
    var rows: seq<ERole>

    constructor (initial: seq<ERole>)
      ensures rows == initial
    {
      rows := initial;
    }

    /** findByName(name).isPresent(). */
    function FindByName(name: ERole): (r: bool)
      reads this
      ensures r <==> exists k :: 0 <= k < |rows| && rows[k] == name
    {
      name in rows
    }

    /** save(new Role(name)): appends one row. */
    method Save(name: ERole)
      modifies this
      ensures rows == old(rows) + [name]
    {
      rows := rows + [name];
    }
  }

  /** One "if absent, save" step. */
  function SeedOne(rows: seq<ERole>, name: ERole): seq<ERole> {
    if name in rows then rows else rows + [name]
  }

  /** The rows after run(): user, then moderator, then admin. */
  function Seeded(rows: seq<ERole>): seq<ERole> {
    SeedOne(SeedOne(SeedOne(rows, RoleUser), RoleModerator), RoleAdmin)
  }

  /** run(). */
  method Run(repo: RoleRepository)
    modifies repo
    ensures repo.rows == Seeded(old(repo.rows))
  {
    if !repo.FindByName(RoleUser) {
      repo.Save(RoleUser);
    }
    if !repo.FindByName(RoleModerator) {
      repo.Save(RoleModerator);
    }
    if !repo.FindByName(RoleAdmin) {
      repo.Save(RoleAdmin);
    }
  }

  function Missing(rows: seq<ERole>, name: ERole): nat {
    if name in rows then 0 else 1
  }

  /** After run() every role is present. */
  lemma AllPresent(rows: seq<ERole>)
    ensures RoleUser in Seeded(rows) && RoleModerator in Seeded(rows) && RoleAdmin in Seeded(rows)
  {
  }

  /** run() removes nothing and reorders nothing: the old rows are a prefix of the new ones. */
  lemma KeepsOldRows(rows: seq<ERole>)
    ensures rows <= Seeded(rows)
  {
  }

  /** run() saves exactly the missing roles, each once: a present role keeps its count, a missing one appears once. */
  lemma NoNewDuplicates(rows: seq<ERole>, name: ERole)
    ensures multiset(Seeded(rows))[name] == if name in rows then multiset(rows)[name] else 1
    ensures |Seeded(rows)| == |rows| + Missing(rows, RoleUser) + Missing(rows, RoleModerator) + Missing(rows, RoleAdmin)
  {
    var r1 := SeedOne(rows, RoleUser);
    var r2 := SeedOne(r1, RoleModerator);
    SeedOneCount(rows, RoleUser, name);
    SeedOneCount(r1, RoleModerator, name);
    SeedOneCount(r2, RoleAdmin, name);
  }

  /** One step adds one row of its role when that role was absent, and nothing otherwise. */
  lemma SeedOneCount(rows: seq<ERole>, n: ERole, name: ERole)
    ensures multiset(SeedOne(rows, n))[name] == multiset(rows)[name] + (if name == n && n !in rows then 1 else 0)
    ensures |SeedOne(rows, n)| == |rows| + Missing(rows, n)
    ensures forall x :: x in SeedOne(rows, n) <==> x in rows || x == n
  {
  }

  /** Running run() a second time changes nothing. */
  lemma Idempotent(rows: seq<ERole>)
    ensures Seeded(Seeded(rows)) == Seeded(rows)
  {
    AllPresent(rows);
  }
}
