/** The store of rows, and what its guards amount to: a statement is let through exactly when the rows it leaves behind
    are all in order. */
module TenantStore {
  import opened Schema
  import opened TenantCore
  import opened TenantRuns

  /** The statement speaks of rows it can touch: it inserts a row of its table under a free primary key, changes a row
      that is there into one of the same table, or deletes a row that is there. */
  predicate Applies(db: Rows, s: Statement) {
    match s
    case Insert(t, row) => WellFormed(t, row) && RefOf(t, row) !in db
    case Update(ref, row) => ref in db && WellFormed(ref.table, row) && (RefOf(ref.table, row) == ref || RefOf(ref.table, row) !in db)
    case Delete(ref) => ref in db
  }

  /** The rows the statement leaves behind, whatever they are. */
  function Applied(db: Rows, s: Statement): Rows
    requires Applies(db, s)
  {
    match s
    case Insert(t, row) => db[RefOf(t, row) := row]
    case Update(ref, row) => (db - {ref})[RefOf(ref.table, row) := row]
    case Delete(ref) => db - {ref}
  }

  /** Evidence and the identity of a booking stay as they are. */
  predicate LeavesEvidence(db: Rows, s: Statement) {
    s.Update? && s.ref in db ==> TriggersAllow(s.ref.table, db[s.ref], s.row)
  }

  /** Every reference leads somewhere, every key is unique, every row is well formed and no evidence is touched: what a
      statement may leave behind. */
  ghost predicate Harmless(db: Rows, s: Statement) {
    Applies(db, s) && LeavesEvidence(db, s) && Inv(Applied(db, s))
  }

  lemma HarmlessInsert(db: Rows, t: Table, row: Row)
    requires Inv(db) && Harmless(db, Insert(t, row))
    ensures InsertAllowed(db, t, row)
  {
    var ref := RefOf(t, row);
    var after := db[ref := row];
    forall k: UniqueKey, r | r in db && KeyTable(k) == t && r.table == t ensures !Collides(k, row, db[r]) {
      assert after[r] == db[r] && after[ref] == row;
    }
    forall key: ForeignKey | Child(key) == t ensures Satisfied(db, key, row) {
      ParentIsElsewhere(key);
      assert Satisfied(after, key, after[ref]);
    }
  }

  /** The row a full reference names is the only one it can lead to. */
  lemma OnlyTheNamed(db: Rows, key: ForeignKey, child: Row, ref: Ref, q: Ref)
    requires RowsOk(db) && q in db && q.table == ref.table == Parent(key)
    requires Naming(key) in child && child[Naming(key)] == Uuid(ref.id)
    ensures Refers(key, child, db[q]) ==> q == ref
  {
    assert WellFormed(q.table, db[q]) && RefOf(q.table, db[q]) == q;
    assert Pair(Naming(key), Id) in Pairs(key);
  }

  lemma NamesById(db: Rows, key: ForeignKey, child: Row, ref: Ref)
    requires RowsOk(db) && ref in db && ref.table == Parent(key) && Refers(key, child, db[ref])
    ensures Naming(key) in child && child[Naming(key)] == Uuid(ref.id) && !SomeOwnNull(key, child)
  {
    assert WellFormed(ref.table, db[ref]) && RefOf(ref.table, db[ref]) == ref;
    assert Pair(Naming(key), Id) in Pairs(key);
  }

  lemma DeletedIsMissed(db: Rows, key: ForeignKey, ref: Ref, r: Ref)
    requires Inv(db) && ref in db && r in db && ref.table == Parent(key) && r.table == Child(key) && Refers(key, db[r], db[ref])
    ensures r in db - {ref} && !Satisfied(db - {ref}, key, db[r])
  {
    ParentIsElsewhere(key);
    NamesById(db, key, db[r], ref);
    forall q | q in db - {ref} && q.table == Parent(key) ensures !Refers(key, db[r], db[q]) {
      OnlyTheNamed(db, key, db[r], ref, q);
    }
  }

  lemma HarmlessDelete(db: Rows, ref: Ref)
    requires Inv(db) && Harmless(db, Delete(ref))
    ensures DeleteAllowed(db, ref)
  {
    forall key: ForeignKey | Parent(key) == ref.table ensures !Referenced(db, key, ref) {
      forall r | r in db && r.table == Child(key) ensures !Refers(key, db[r], db[ref]) {
        if Refers(key, db[r], db[ref]) {
          DeletedIsMissed(db, key, ref, r);
        }
      }
    }
  }

  lemma HarmlessUpdateKeepsKeys(db: Rows, ref: Ref, row: Row, key: ForeignKey)
    requires Inv(db) && Harmless(db, Update(ref, row))
    requires Parent(key) == ref.table && Referenced(db, key, ref)
    ensures SameKey(key, db[ref], row)
  {
    hide Pairs;
    hide Required;
    hide Checked;
    hide TriggersAllow;
    hide Refers;
    hide SameKey;
    hide SomeOwnNull;
    var to := RefOf(ref.table, row);
    var after := (db - {ref})[to := row];
    var r :| r in db && r.table == Child(key) && Refers(key, db[r], db[ref]);
    ParentIsElsewhere(key);
    NamesById(db, key, db[r], ref);
    assert after[r] == db[r] && Satisfied(after, key, after[r]);
    var q :| q in after && q.table == Parent(key) && Refers(key, after[r], after[q]);
    OnlyTheNamed(after, key, after[r], ref, q);
    OneRowNamesOneKey(key, db[r], db[ref], after[q]);
  }

  /** What one row refers to has one key. */
  lemma OneRowNamesOneKey(key: ForeignKey, child: Row, a: Row, b: Row)
    requires Refers(key, child, a) && Refers(key, child, b)
    ensures SameKey(key, a, b)
  {
    hide Pairs;
  }

  lemma HarmlessUpdate(db: Rows, ref: Ref, row: Row)
    requires Inv(db) && Harmless(db, Update(ref, row))
    ensures UpdateAllowed(db, ref, row)
  {
    var to := RefOf(ref.table, row);
    var after := (db - {ref})[to := row];
    forall k: UniqueKey, r | r in db && KeyTable(k) == ref.table && r.table == ref.table && r != ref
      ensures !Collides(k, row, db[r])
    {
      assert after[r] == db[r] && after[to] == row;
    }
    forall key: ForeignKey | Child(key) == ref.table ensures Satisfied(db, key, row) {
      ParentIsElsewhere(key);
      assert Satisfied(after, key, after[to]);
    }
    forall key: ForeignKey | Parent(key) == ref.table && Referenced(db, key, ref) ensures SameKey(key, db[ref], row) {
      HarmlessUpdateKeepsKeys(db, ref, row, key);
    }
  }

  /** The guards refuse nothing they need not and let nothing through that they must not: a statement is allowed exactly
      when it leaves every row, reference and key in order and evidence untouched. */
  lemma GuardsAreExact(db: Rows, s: Statement)
    requires Inv(db)
    ensures Allowed(db, s) <==> Harmless(db, s)
    ensures Execute(db, s) == if Harmless(db, s) then Applied(db, s) else db
  {
    if Allowed(db, s) {
      ExecuteKeeps(db, s);
    }
    if Harmless(db, s) {
      match s
      case Insert(t, row) => HarmlessInsert(db, t, row);
      case Update(ref, row) => HarmlessUpdate(db, ref, row);
      case Delete(ref) => HarmlessDelete(db, ref);
    }
  }

  class Store {
    var rows: Rows

    ghost predicate Valid()
      reads this
    {
      Inv(rows)
    }

    constructor ()
      ensures Valid() && rows == map[]
    {
      rows := map[];
    }

    /** Whatever is asked of it, the store stays in order: it does what is harmless and refuses everything else. */
    method Do(s: Statement) returns (done: bool)
      requires Valid()
      modifies this
      ensures Valid()
      ensures done <==> Harmless(old(rows), s)
      ensures rows == if done then Applied(old(rows), s) else old(rows)
    {
      GuardsAreExact(rows, s);
      ExecuteKeeps(rows, s);
      done := Allowed(rows, s);
      if done {
        match s {
          case Insert(t, row) =>
            rows := rows[RefOf(t, row) := row];
          case Update(ref, row) =>
            rows := rows - {ref};
            rows := rows[RefOf(ref.table, row) := row];
          case Delete(ref) =>
            rows := rows - {ref};
        }
      }
    }
  }

  /** A store asked to do any list of statements holds what `Run` says, in order after each of them. */
  method Drive(statements: seq<Statement>) returns (store: Store)
    ensures fresh(store) && store.Valid()
    ensures store.rows == Run(map[], statements)
  {
    store := new Store();
    for k := 0 to |statements|
      invariant fresh(store) && store.Valid()
      invariant store.rows == Run(map[], statements[..k])
    {
      assert statements[..k + 1][..k] == statements[..k];
      GuardsAreExact(store.rows, statements[k]);
      var done := store.Do(statements[k]);
    }
    assert statements[..|statements|] == statements;
  }
}
