/** The rows, and the guarded inserts, updates and deletes PostgreSQL lets through: foreign keys are MATCH SIMPLE,
    every delete is RESTRICT, updating a referenced key is refused, and triggers run before an update. */
module TenantCore {
  import opened Schema

  datatype Ref = Ref(table: Table, id: nat)

  /** Every row, by its table and its primary key. */
  type Rows = map<Ref, Row>

  /** `child` references `parent` by `fk`: all the columns are there and equal. */
  predicate Refers(fk: ForeignKey, child: Row, parent: Row) {
    forall p | p in Pairs(fk) :: p.own in child && p.theirs in parent && child[p.own] == parent[p.theirs]
  }

  predicate SomeOwnNull(fk: ForeignKey, row: Row) {
    exists p | p in Pairs(fk) :: p.own !in row
  }

  predicate Satisfied(db: Rows, fk: ForeignKey, row: Row) {
    SomeOwnNull(fk, row) || exists r | r in db :: r.table == Parent(fk) && Refers(fk, row, db[r])
  }

  predicate Collides(k: UniqueKey, a: Row, b: Row) {
    forall c | c in KeyColumns(k) :: c in a && c in b && a[c] == b[c]
  }

  /** The row on its own: a primary key, no NULL where none is allowed, its checks. */
  predicate WellFormed(t: Table, row: Row) {
    Id in row && row[Id].Uuid? && Required(t) <= row.Keys && Checked(t, row)
  }

  function RefOf(t: Table, row: Row): Ref
    requires WellFormed(t, row)
  {
    Ref(t, row[Id].n)
  }

  /** No other row of the table, `but` apart, has the values of one of its unique keys. */
  predicate NoDuplicate(db: Rows, t: Table, row: Row, but: set<Ref>) {
    forall k: UniqueKey, r | r in db :: KeyTable(k) == t && r.table == t && r !in but ==> !Collides(k, row, db[r])
  }

  predicate References(db: Rows, t: Table, row: Row) {
    forall fk: ForeignKey :: Child(fk) == t ==> Satisfied(db, fk, row)
  }

  /** Some row references `ref` by `fk`. */
  predicate Referenced(db: Rows, fk: ForeignKey, ref: Ref)
    requires ref in db
  {
    exists r | r in db :: r.table == Child(fk) && Refers(fk, db[r], db[ref])
  }

  predicate InsertAllowed(db: Rows, t: Table, row: Row) {
    && WellFormed(t, row)
    && RefOf(t, row) !in db
    && NoDuplicate(db, t, row, {})
    && References(db, t, row)
  }

  predicate DeleteAllowed(db: Rows, ref: Ref) {
    ref in db && forall fk: ForeignKey :: Parent(fk) == ref.table ==> !Referenced(db, fk, ref)
  }

  predicate SameKey(fk: ForeignKey, before: Row, after: Row) {
    forall p | p in Pairs(fk) :: p.theirs in before && p.theirs in after && before[p.theirs] == after[p.theirs]
  }

  /** The triggers: evidence never changes, a booking keeps its identity. */
  predicate TriggersAllow(t: Table, before: Row, after: Row) {
    && !Immutable(t)
    && (t.Bookings? ==> forall c | c in BOOKING_IDENTITY :: c in before && c in after && before[c] == after[c])
  }

  predicate UpdateAllowed(db: Rows, ref: Ref, row: Row) {
    && ref in db
    && TriggersAllow(ref.table, db[ref], row)
    && WellFormed(ref.table, row)
    && (RefOf(ref.table, row) == ref || RefOf(ref.table, row) !in db)
    && NoDuplicate(db, ref.table, row, {ref})
    && References(db, ref.table, row)
    && forall fk: ForeignKey :: Parent(fk) == ref.table && !SameKey(fk, db[ref], row) ==> !Referenced(db, fk, ref)
  }

  datatype Statement =
    | Insert(table: Table, row: Row)
    | Update(ref: Ref, row: Row)
    | Delete(ref: Ref)

  predicate Allowed(db: Rows, s: Statement) {
    match s
    case Insert(t, row) => InsertAllowed(db, t, row)
    case Update(ref, row) => UpdateAllowed(db, ref, row)
    case Delete(ref) => DeleteAllowed(db, ref)
  }

  /** A refused statement changes nothing. */
  function Execute(db: Rows, s: Statement): Rows {
    if !Allowed(db, s) then db
    else
      match s
      case Insert(t, row) => db[RefOf(t, row) := row]
      case Update(ref, row) => (db - {ref})[RefOf(ref.table, row) := row]
      case Delete(ref) => db - {ref}
  }

  function Run(db: Rows, statements: seq<Statement>): Rows {
    if statements == [] then db
    else Execute(Run(db, statements[..|statements| - 1]), statements[|statements| - 1])
  }
}
