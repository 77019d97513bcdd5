/** What every sequence of statements keeps: rows that reference each other belong to each other. */
module TenantRuns {
  import opened Basics
  import opened Schema
  import opened TenantCore

  ghost predicate RowsOk(db: Rows) {
    forall r :: r in db ==> WellFormed(r.table, db[r]) && RefOf(r.table, db[r]) == r
  }

  ghost predicate LinksOk(db: Rows) {
    forall fk: ForeignKey, r :: r in db && Child(fk) == r.table ==> Satisfied(db, fk, db[r])
  }

  ghost predicate KeysOk(db: Rows) {
    forall k: UniqueKey, r, q :: r in db && q in db && r != q && KeyTable(k) == r.table == q.table ==> !Collides(k, db[r], db[q])
  }

  ghost predicate Inv(db: Rows) {
    RowsOk(db) && LinksOk(db) && KeysOk(db)
  }

  // ---------------------------------------------------------------------------------------------
  // Every statement keeps it
  // ---------------------------------------------------------------------------------------------

  lemma ParentIsElsewhere(fk: ForeignKey)
    ensures Child(fk) != Parent(fk)
  {
  }

  /** A reference survives when the row it points to does, unchanged. */
  lemma StillSatisfied(db: Rows, after: Rows, fk: ForeignKey, row: Row)
    requires Satisfied(db, fk, row)
    requires forall r :: r in db && r.table == Parent(fk) && Refers(fk, row, db[r]) ==> exists q :: q in after && q.table == Parent(fk) && Refers(fk, row, after[q])
    ensures Satisfied(after, fk, row)
  {
  }

  lemma CollidesBothWays(k: UniqueKey, a: Row, b: Row)
    ensures Collides(k, a, b) <==> Collides(k, b, a)
  {
  }

  lemma InsertKeeps(db: Rows, t: Table, row: Row)
    requires Inv(db) && InsertAllowed(db, t, row)
    ensures Inv(db[RefOf(t, row) := row])
  {
    var ref := RefOf(t, row);
    var after := db[ref := row];
    forall fk: ForeignKey, r | r in after && Child(fk) == r.table
      ensures Satisfied(after, fk, after[r])
    {
      assert Satisfied(db, fk, after[r]);
      forall p | p in db && p.table == Parent(fk) && Refers(fk, after[r], db[p])
        ensures exists q :: q in after && q.table == Parent(fk) && Refers(fk, after[r], after[q])
      {
        assert p in after && after[p] == db[p];
      }
      StillSatisfied(db, after, fk, after[r]);
    }
    forall k: UniqueKey, r, q | r in after && q in after && r != q && KeyTable(k) == r.table == q.table
      ensures !Collides(k, after[r], after[q])
    {
      CollidesBothWays(k, after[r], after[q]);
    }
  }

  lemma DeleteKeeps(db: Rows, ref: Ref)
    requires Inv(db) && DeleteAllowed(db, ref)
    ensures Inv(db - {ref})
  {
    var after := db - {ref};
    forall fk: ForeignKey, r | r in after && Child(fk) == r.table
      ensures Satisfied(after, fk, after[r])
    {
      assert Satisfied(db, fk, db[r]);
      forall p | p in db && p.table == Parent(fk) && Refers(fk, db[r], db[p])
        ensures exists q :: q in after && q.table == Parent(fk) && Refers(fk, db[r], after[q])
      {
        if p == ref {
          assert Referenced(db, fk, ref);
        }
        assert p in after && after[p] == db[p];
      }
      StillSatisfied(db, after, fk, db[r]);
    }
  }

  lemma UpdateKeepsLinks(db: Rows, ref: Ref, row: Row)
    requires Inv(db) && UpdateAllowed(db, ref, row)
    ensures LinksOk((db - {ref})[RefOf(ref.table, row) := row])
  {
    var to := RefOf(ref.table, row);
    var after := (db - {ref})[to := row];
    forall fk: ForeignKey, r | r in after && Child(fk) == r.table
      ensures Satisfied(after, fk, after[r])
    {
      ParentIsElsewhere(fk);
      assert Satisfied(db, fk, after[r]);
      forall p | p in db && p.table == Parent(fk) && Refers(fk, after[r], db[p])
        ensures exists q :: q in after && q.table == Parent(fk) && Refers(fk, after[r], after[q])
      {
        if p == ref {
          assert r in db && db[r] == after[r];
          assert Referenced(db, fk, ref);
          assert SameKey(fk, db[ref], row);
          assert to in after && Refers(fk, after[r], after[to]);
        } else {
          assert p in after && after[p] == db[p];
        }
      }
      StillSatisfied(db, after, fk, after[r]);
    }
  }

  lemma UpdateKeepsKeys(db: Rows, ref: Ref, row: Row)
    requires Inv(db) && UpdateAllowed(db, ref, row)
    ensures KeysOk((db - {ref})[RefOf(ref.table, row) := row])
  {
    var to := RefOf(ref.table, row);
    var after := (db - {ref})[to := row];
    forall k: UniqueKey, r, q | r in after && q in after && r != q && KeyTable(k) == r.table == q.table
      ensures !Collides(k, after[r], after[q])
    {
      CollidesBothWays(k, after[r], after[q]);
    }
  }

  lemma ExecuteKeeps(db: Rows, s: Statement)
    requires Inv(db)
    ensures Inv(Execute(db, s))
  {
    if Allowed(db, s) {
      match s
      case Insert(t, row) => InsertKeeps(db, t, row);
      case Update(ref, row) =>
        UpdateKeepsLinks(db, ref, row);
        UpdateKeepsKeys(db, ref, row);
      case Delete(ref) => DeleteKeeps(db, ref);
    }
  }

  /** Whatever is inserted, updated and deleted, in any order, refused or not. */
  lemma {:induction false} RunKeeps(db: Rows, statements: seq<Statement>)
    requires Inv(db)
    ensures Inv(Run(db, statements))
    decreases |statements|
  {
    if statements != [] {
      RunKeeps(db, statements[..|statements| - 1]);
      ExecuteKeeps(Run(db, statements[..|statements| - 1]), statements[|statements| - 1]);
    }
  }

  ghost predicate Reachable(db: Rows) {
    exists statements :: db == Run(map[], statements)
  }

  lemma ReachableKeeps(db: Rows)
    requires Reachable(db)
    ensures Inv(db)
  {
    var statements :| db == Run(map[], statements);
    RunKeeps(map[], statements);
  }

  // ---------------------------------------------------------------------------------------------
  // Chains of references
  // ---------------------------------------------------------------------------------------------

  /** `from` references `to` by `fk`. */
  predicate Links(db: Rows, fk: ForeignKey, from: Ref, to: Ref) {
    && from in db && to in db
    && from.table == Child(fk) && to.table == Parent(fk)
    && Refers(fk, db[from], db[to])
  }

  datatype Scope = Workspace | Property | Source

  /** The column that says which workspace, property or data source a row belongs to. */
  function ScopeColumn(s: Scope, t: Table): Column {
    match s
    case Workspace => if t.Workspaces? then Id else WorkspaceId
    case Property => if t.Properties? then Id else PropertyId
    case Source => if t.DataSources? then Id else DataSourceId
  }

  /** The key carries the scope: both rows name the same one. */
  predicate Carries(fk: ForeignKey, s: Scope) {
    Pair(ScopeColumn(s, Child(fk)), ScopeColumn(s, Parent(fk))) in Pairs(fk)
  }

  /** Every key of the schema carries the workspace. */
  lemma EveryKeyCarriesTheWorkspace(fk: ForeignKey)
    ensures Carries(fk, Workspace)
  {
  }

  // ---------------------------------------------------------------------------------------------
  // The rows a reference leads to
  // ---------------------------------------------------------------------------------------------

  /** The row `from` names by `fk`. */
  function Target(db: Rows, fk: ForeignKey, from: Ref): Ref
    requires from in db && Naming(fk) in db[from] && db[from][Naming(fk)].Uuid?
  {
    Ref(Parent(fk), db[from][Naming(fk)].n)
  }

  predicate Names(db: Rows, fk: ForeignKey, from: Ref) {
    from in db && Naming(fk) in db[from] && db[from][Naming(fk)].Uuid?
  }

  /** A row whose referencing columns are all there names, by its primary key, a row that exists and agrees. */
  lemma ReferencedRowIsThere(db: Rows, fk: ForeignKey, from: Ref)
    requires Inv(db) && from in db && from.table == Child(fk) && !SomeOwnNull(fk, db[from])
    ensures Names(db, fk, from) && Links(db, fk, from, Target(db, fk, from))
  {
    assert Satisfied(db, fk, db[from]);
    var p :| p in db && p.table == Parent(fk) && Refers(fk, db[from], db[p]);
    assert Pair(Naming(fk), Id) in Pairs(fk);
    assert WellFormed(p.table, db[p]) && RefOf(p.table, db[p]) == p;
  }

  lemma NothingMissing(fk: ForeignKey, row: Row)
    requires Required(Child(fk)) <= row.Keys && fk != AliasesSource
    ensures !SomeOwnNull(fk, row)
  {
    OwnColumnsAreRequired(fk);
  }

  lemma OwnColumnsAreRequired(fk: ForeignKey)
    requires fk != AliasesSource
    ensures forall p :: p in Pairs(fk) ==> p.own in Required(Child(fk))
  {
    forall p | p in Pairs(fk) ensures p.own in Required(Child(fk)) {
      OwnColumnIsRequired(fk, p);
    }
    hide Pairs;
    hide Required;
  }

  lemma OwnColumnIsRequired(fk: ForeignKey, p: Pair)
    requires fk != AliasesSource && p in Pairs(fk)
    ensures p.own in Required(Child(fk))
  {
  }

  /** Of all references only an alias's data source may be left open: the others always lead somewhere. */
  lemma EveryReferenceLeads(db: Rows, fk: ForeignKey, from: Ref)
    requires Inv(db) && from in db && from.table == Child(fk) && fk != AliasesSource
    ensures Names(db, fk, from) && Links(db, fk, from, Target(db, fk, from))
  {
    assert WellFormed(from.table, db[from]);
    NothingMissing(fk, db[from]);
    ReferencedRowIsThere(db, fk, from);
  }

  /** The row that following `keys` from `from` leads to, each by the primary key it names; None when a key names none. */
  function Followed(db: Rows, from: Ref, keys: seq<ForeignKey>): Option<Ref>
    decreases |keys|
  {
    if keys == [] then Some(from)
    else if Names(db, keys[0], from) then Followed(db, Target(db, keys[0], from), keys[1..])
    else None
  }

  /** The keys can follow each other, from a row of table `t` on. */
  predicate Connected(t: Table, keys: seq<ForeignKey>)
    decreases |keys|
  {
    keys != [] ==> Child(keys[0]) == t && Connected(Parent(keys[0]), keys[1..])
  }

  /** The key of an alias whose data source is left open. */
  predicate LeftOpen(db: Rows, from: Ref, key: ForeignKey)
    requires from in db
  {
    key == AliasesSource && DataSourceId !in db[from]
  }

  lemma OneStep(db: Rows, from: Ref, key: ForeignKey)
    requires Inv(db) && from in db && Child(key) == from.table
    ensures Names(db, key, from) <==> !LeftOpen(db, from, key)
    ensures Names(db, key, from) ==> Links(db, key, from, Target(db, key, from))
  {
    if key != AliasesSource {
      EveryReferenceLeads(db, key, from);
    } else if DataSourceId in db[from] {
      AliasIsFilledIn(db, from);
      ReferencedRowIsThere(db, key, from);
    }
  }

  lemma AliasIsFilledIn(db: Rows, alias: Ref)
    requires Inv(db) && alias in db && alias.table.SupplierAliases? && DataSourceId in db[alias]
    ensures !SomeOwnNull(AliasesSource, db[alias])
  {
    assert WellFormed(SupplierAliases, db[alias]);
  }

  lemma StepStaysInScope(db: Rows, from: Ref, key: ForeignKey, to: Ref, s: Scope)
    requires Links(db, key, from, to) && Carries(key, s)
    ensures ScopeColumn(s, from.table) in db[from] && ScopeColumn(s, to.table) in db[to]
    ensures db[from][ScopeColumn(s, from.table)] == db[to][ScopeColumn(s, to.table)]
  {
  }

  /** Whatever statements made the rows: following any keys by the ids the rows name, however many and through whatever
      tables, leads to a row that is there, of the same workspace, property or data source as the first when all the
      keys carry it. Only an alias that leaves its data source open leads nowhere. */
  lemma {:induction false} KeysStayInScope(db: Rows, from: Ref, keys: seq<ForeignKey>, s: Scope)
    requires Inv(db) && from in db && Connected(from.table, keys) && keys != []
    requires forall i :: 0 <= i < |keys| ==> Carries(keys[i], s)
    ensures (forall i :: 0 <= i < |keys| ==> keys[i] != AliasesSource) ==> Followed(db, from, keys).Some?
    ensures Followed(db, from, keys).Some? ==>
              var to := Followed(db, from, keys).value;
              && to in db && ScopeColumn(s, from.table) in db[from] && ScopeColumn(s, to.table) in db[to]
              && db[from][ScopeColumn(s, from.table)] == db[to][ScopeColumn(s, to.table)]
    decreases |keys|
  {
    hide Inv;
    hide Links;
    hide Carries;
    hide ScopeColumn;
    hide Pairs;
    OneStep(db, from, keys[0]);
    if Names(db, keys[0], from) {
      var next, rest := Target(db, keys[0], from), keys[1..];
      LinkedRows(db, keys[0], from, next);
      StepStaysInScope(db, from, keys[0], next, s);
      if rest != [] {
        KeysStayInScope(db, next, rest, s);
      } else {
        assert Followed(db, next, rest) == Some(next);
      }
    }
  }

  lemma LinkedRows(db: Rows, key: ForeignKey, from: Ref, to: Ref)
    requires Links(db, key, from, to)
    ensures to in db && to.table == Parent(key)
  {
  }

  /** In every reachable database rows joined by any keys, by the ids they name, are of one workspace. */
  lemma AnyKeysStayInOneWorkspace(db: Rows, from: Ref, keys: seq<ForeignKey>)
    requires Reachable(db) && from in db && Connected(from.table, keys) && keys != []
    ensures (forall i :: 0 <= i < |keys| ==> keys[i] != AliasesSource) ==> Followed(db, from, keys).Some?
    ensures Followed(db, from, keys).Some? ==>
              var to := Followed(db, from, keys).value;
              && to in db && ScopeColumn(Workspace, from.table) in db[from] && ScopeColumn(Workspace, to.table) in db[to]
              && db[from][ScopeColumn(Workspace, from.table)] == db[to][ScopeColumn(Workspace, to.table)]
  {
    hide Inv;
    hide Reachable;
    hide Carries;
    ReachableKeeps(db);
    forall i | 0 <= i < |keys| ensures Carries(keys[i], Workspace) {
      EveryKeyCarriesTheWorkspace(keys[i]);
    }
    KeysStayInScope(db, from, keys, Workspace);
  }

  /** Two rows agree on a column they both have. */
  predicate Agree(db: Rows, a: Ref, b: Ref, c: Column) {
    a in db && b in db && c in db[a] && c in db[b] && db[a][c] == db[b][c]
  }

  /** A row that came out of a file (an invoice, a labor snapshot): its file belongs to its own job, that job to its
      own data source, that source to its own property, all of them to its own workspace. */
  ghost predicate Provenance(db: Rows, r: Ref, file: Ref, job: Ref, source: Ref, property: Ref) {
    && file.table.ImportFiles? && job.table.ImportJobs? && source.table.DataSources? && property.table.Properties?
    && Links(db, FilesJob, file, job) && Links(db, JobsSource, job, source) && Links(db, SourcesProperty, source, property)
    && Agree(db, r, file, WorkspaceId) && Agree(db, r, job, WorkspaceId) && Agree(db, r, source, WorkspaceId)
    && Agree(db, r, property, WorkspaceId)
    && Agree(db, r, job, DataSourceId) && Agree(db, r, job, PropertyId) && Agree(db, r, source, PropertyId)
    && DataSourceId in db[r] && db[r][DataSourceId] == Uuid(source.id)
    && PropertyId in db[r] && db[r][PropertyId] == Uuid(property.id)
  }

  lemma FromJobOn(db: Rows, r: Ref, job: Ref)
    requires Inv(db) && r in db && job in db && job.table.ImportJobs?
    requires Agree(db, r, job, WorkspaceId) && Agree(db, r, job, PropertyId) && Agree(db, r, job, DataSourceId)
    ensures Names(db, JobsSource, job)
    ensures var source := Target(db, JobsSource, job);
            && Links(db, JobsSource, job, source)
            && Names(db, SourcesProperty, source)
            && Links(db, SourcesProperty, source, Target(db, SourcesProperty, source))
            && Agree(db, r, source, WorkspaceId) && Agree(db, r, source, PropertyId)
            && Agree(db, r, Target(db, SourcesProperty, source), WorkspaceId)
            && db[r][DataSourceId] == Uuid(source.id)
            && db[r][PropertyId] == Uuid(Target(db, SourcesProperty, source).id)
  {
    EveryReferenceLeads(db, JobsSource, job);
    var source := Target(db, JobsSource, job);
    assert TENANT in Pairs(JobsSource) && SAME_PROPERTY in Pairs(JobsSource) && Pair(DataSourceId, Id) in Pairs(JobsSource);
    EveryReferenceLeads(db, SourcesProperty, source);
    assert TENANT in Pairs(SourcesProperty) && Pair(PropertyId, Id) in Pairs(SourcesProperty);
  }

  predicate Imports(toJob: ForeignKey, toFile: ForeignKey) {
    (toJob == InvoicesJob && toFile == InvoicesFile) || (toJob == LaborJob && toFile == LaborFile)
  }

  lemma KeysOfImports(toJob: ForeignKey, toFile: ForeignKey)
    requires Imports(toJob, toFile)
    ensures TENANT in Pairs(toJob) && SAME_PROPERTY in Pairs(toJob) && SAME_SOURCE in Pairs(toJob)
    ensures TENANT in Pairs(toFile) && Pair(SourceImportJobId, ImportJobId) in Pairs(toFile)
    ensures Child(toJob) == Child(toFile) && Parent(toJob) == ImportJobs && Parent(toFile) == ImportFiles
    ensures Naming(toJob) == SourceImportJobId && toJob != AliasesSource && toFile != AliasesSource
  {
  }

  lemma LinkedAgree(db: Rows, fk: ForeignKey, from: Ref, to: Ref, p: Pair)
    requires Links(db, fk, from, to) && p in Pairs(fk)
    ensures p.own in db[from] && p.theirs in db[to] && db[from][p.own] == db[to][p.theirs]
  {
  }

  lemma JobOfImported(db: Rows, r: Ref, toJob: ForeignKey, toFile: ForeignKey)
    requires Inv(db) && r in db && Imports(toJob, toFile) && r.table == Child(toJob)
    ensures Names(db, toJob, r) && Target(db, toJob, r) in db && Target(db, toJob, r).table.ImportJobs?
    ensures var job := Target(db, toJob, r);
            Agree(db, r, job, WorkspaceId) && Agree(db, r, job, PropertyId) && Agree(db, r, job, DataSourceId)
    ensures SourceImportJobId in db[r] && db[r][SourceImportJobId] == Uuid(Target(db, toJob, r).id)
  {
    KeysOfImports(toJob, toFile);
    EveryReferenceLeads(db, toJob, r);
    hide Pairs;
    hide Inv;
    var job := Target(db, toJob, r);
    LinkedAgree(db, toJob, r, job, TENANT);
    LinkedAgree(db, toJob, r, job, SAME_PROPERTY);
    LinkedAgree(db, toJob, r, job, SAME_SOURCE);
  }

  lemma FileOfImported(db: Rows, r: Ref, toJob: ForeignKey, toFile: ForeignKey)
    requires Inv(db) && r in db && Imports(toJob, toFile) && r.table == Child(toJob)
    ensures Names(db, toFile, r) && Target(db, toFile, r) in db && Target(db, toFile, r).table.ImportFiles?
    ensures Agree(db, r, Target(db, toFile, r), WorkspaceId)
    ensures var file := Target(db, toFile, r);
            SourceImportJobId in db[r] && ImportJobId in db[file] && db[file][ImportJobId] == db[r][SourceImportJobId]
  {
    KeysOfImports(toJob, toFile);
    EveryReferenceLeads(db, toFile, r);
    hide Pairs;
    hide Inv;
    var file := Target(db, toFile, r);
    LinkedAgree(db, toFile, r, file, TENANT);
    LinkedAgree(db, toFile, r, file, Pair(SourceImportJobId, ImportJobId));
  }

  /** `toJob` and `toFile` are the keys of an imported row: the invoice's or the labor snapshot's. */
  lemma ImportedRowProvenance(db: Rows, r: Ref, toJob: ForeignKey, toFile: ForeignKey)
    requires Inv(db) && r in db && Imports(toJob, toFile) && r.table == Child(toJob)
    ensures Names(db, toJob, r) && Names(db, toFile, r)
    ensures var job, file := Target(db, toJob, r), Target(db, toFile, r);
            exists source, property :: Provenance(db, r, file, job, source, property)
  {
    JobOfImported(db, r, toJob, toFile);
    FileOfImported(db, r, toJob, toFile);
    var job, file := Target(db, toJob, r), Target(db, toFile, r);
    FromJobOn(db, r, job);
    EveryReferenceLeads(db, FilesJob, file);
    var source := Target(db, JobsSource, job);
    hide Inv;
    assert Target(db, FilesJob, file) == job;
    assert Provenance(db, r, file, job, source, Target(db, SourcesProperty, source));
  }

  /** In every reachable database an invoice's file belongs to the invoice's own job, that job to its own data
      source, that source to its own property, and its supplier to its own workspace. */
  lemma InvoiceProvenance(db: Rows, invoice: Ref)
    requires Reachable(db) && invoice in db && invoice.table.Invoices?
    ensures Names(db, InvoicesJob, invoice) && Names(db, InvoicesFile, invoice) && Names(db, InvoicesSupplier, invoice)
    ensures exists source, property ::
              Provenance(db, invoice, Target(db, InvoicesFile, invoice), Target(db, InvoicesJob, invoice), source, property)
    ensures Agree(db, invoice, Target(db, InvoicesSupplier, invoice), WorkspaceId)
  {
    ReachableKeeps(db);
    ImportedRowProvenance(db, invoice, InvoicesJob, InvoicesFile);
    InvoiceSupplier(db, invoice);
  }

  lemma InvoiceSupplier(db: Rows, invoice: Ref)
    requires Inv(db) && invoice in db && invoice.table.Invoices?
    ensures Names(db, InvoicesSupplier, invoice) && Agree(db, invoice, Target(db, InvoicesSupplier, invoice), WorkspaceId)
  {
    EveryReferenceLeads(db, InvoicesSupplier, invoice);
    assert TENANT in Pairs(InvoicesSupplier);
  }

  /** And so does the file of every labor snapshot. */
  lemma LaborProvenance(db: Rows, snapshot: Ref)
    requires Reachable(db) && snapshot in db && snapshot.table.LaborSnapshots?
    ensures Names(db, LaborJob, snapshot) && Names(db, LaborFile, snapshot)
    ensures exists source, property ::
              Provenance(db, snapshot, Target(db, LaborFile, snapshot), Target(db, LaborJob, snapshot), source, property)
  {
    ReachableKeeps(db);
    ImportedRowProvenance(db, snapshot, LaborJob, LaborFile);
  }

  /** In every reachable database a booking's channel and both its jobs are of the booking's own property, the jobs
      of its own data source, and everything of its own workspace. */
  lemma BookingBelongings(db: Rows, booking: Ref)
    requires Reachable(db) && booking in db && booking.table.Bookings?
    ensures Names(db, BookingsChannel, booking) && Names(db, BookingsFirstJob, booking) && Names(db, BookingsLastJob, booking)
    ensures var channel := Target(db, BookingsChannel, booking);
            channel in db && Agree(db, booking, channel, PropertyId) && Agree(db, booking, channel, WorkspaceId)
    ensures forall job :: job == Target(db, BookingsFirstJob, booking) || job == Target(db, BookingsLastJob, booking) ==>
              && job in db && Agree(db, booking, job, WorkspaceId) && Agree(db, booking, job, PropertyId) && Agree(db, booking, job, DataSourceId)
  {
    ReachableKeeps(db);
    EveryReferenceLeads(db, BookingsChannel, booking);
    EveryReferenceLeads(db, BookingsFirstJob, booking);
    EveryReferenceLeads(db, BookingsLastJob, booking);
    assert TENANT in Pairs(BookingsChannel) && SAME_PROPERTY in Pairs(BookingsChannel);
    assert TENANT in Pairs(BookingsFirstJob) && SAME_PROPERTY in Pairs(BookingsFirstJob) && SAME_SOURCE in Pairs(BookingsFirstJob);
    assert TENANT in Pairs(BookingsLastJob) && SAME_PROPERTY in Pairs(BookingsLastJob) && SAME_SOURCE in Pairs(BookingsLastJob);
  }

  /** Observed or reconstructed, a slot holds one snapshot: two snapshots of one data source never speak of the
      same night as seen on the same day. */
  lemma OneSnapshotPerSlot(db: Rows, a: Ref, b: Ref)
    requires Reachable(db) && a in db && b in db && a.table.BookingSnapshots? && b.table.BookingSnapshots?
    requires Agree(db, a, b, WorkspaceId) && Agree(db, a, b, DataSourceId)
    requires Agree(db, a, b, SnapshotLocalDate) && Agree(db, a, b, StayDate)
    ensures a == b
  {
    ReachableKeeps(db);
    assert KeyTable(SnapshotSlot) == a.table == b.table;
    assert Collides(SnapshotSlot, db[a], db[b]);
  }

  // ---------------------------------------------------------------------------------------------
  // Evidence over time
  // ---------------------------------------------------------------------------------------------

  /** The row is there before, after and all along. */
  ghost predicate AliveThroughout(db: Rows, statements: seq<Statement>, r: Ref) {
    forall k :: 0 <= k <= |statements| ==> r in Run(db, statements[..k])
  }

  lemma AliveBefore(db: Rows, statements: seq<Statement>, r: Ref)
    requires statements != [] && AliveThroughout(db, statements, r)
    ensures AliveThroughout(db, statements[..|statements| - 1], r)
    ensures r in Run(db, statements) && r in Run(db, statements[..|statements| - 1])
  {
    var n := |statements| - 1;
    forall k | 0 <= k <= n ensures r in Run(db, statements[..n][..k]) {
      assert statements[..n][..k] == statements[..k];
    }
    assert statements[..n + 1] == statements;
  }

  lemma AliveNow(db: Rows, statements: seq<Statement>, r: Ref)
    requires AliveThroughout(db, statements, r)
    ensures r in db && r in Run(db, statements)
  {
    assert statements[..0] == [];
    assert statements[..|statements|] == statements;
  }

  lemma EvidenceStep(db: Rows, s: Statement, r: Ref)
    requires r in db && r in Execute(db, s) && Immutable(r.table)
    ensures Execute(db, s)[r] == db[r]
  {
  }

  /** A row of evidence that is never deleted is the same row, column by column, after any run. */
  lemma {:induction false} EvidenceNeverChanges(db: Rows, statements: seq<Statement>, r: Ref)
    requires AliveThroughout(db, statements, r)
    requires r.table in {BookingSnapshots, Baselines, Comparables, Invoices, InvoiceLines, LaborSnapshots, LaborEntries}
    ensures r in db && r in Run(db, statements) && Run(db, statements)[r] == db[r]
    decreases |statements|
  {
    AliveNow(db, statements, r);
    if statements != [] {
      AliveBefore(db, statements, r);
      EvidenceNeverChanges(db, statements[..|statements| - 1], r);
      EvidenceStep(Run(db, statements[..|statements| - 1]), statements[|statements| - 1], r);
    }
  }

  /** A row that is referenced all along, by rows that are never deleted, is never deleted itself. */
  lemma {:induction false} ReferencedRowStays(db: Rows, statements: seq<Statement>, fk: ForeignKey, from: Ref)
    requires Inv(db) && AliveThroughout(db, statements, from)
    requires from.table == Child(fk) && Immutable(from.table)
    ensures Names(db, fk, from) && AliveThroughout(db, statements, Target(db, fk, from))
    decreases |statements|
  {
    AliveNow(db, statements, from);
    EveryReferenceLeads(db, fk, from);
    var to := Target(db, fk, from);
    forall k | 0 <= k <= |statements| ensures to in Run(db, statements[..k]) {
      RunKeeps(db, statements[..k]);
      AliveUpTo(db, statements, k, from);
      EvidenceNeverChanges(db, statements[..k], from);
      EveryReferenceLeads(Run(db, statements[..k]), fk, from);
    }
  }

  lemma AliveUpTo(db: Rows, statements: seq<Statement>, n: nat, r: Ref)
    requires n <= |statements| && AliveThroughout(db, statements, r)
    ensures AliveThroughout(db, statements[..n], r)
  {
    forall k | 0 <= k <= n ensures r in Run(db, statements[..n][..k]) {
      assert statements[..n][..k] == statements[..k];
    }
  }

  /** Evidence that points to evidence keeps pointing to the same unchanged row. */
  lemma ReferenceIsPinned(db: Rows, statements: seq<Statement>, fk: ForeignKey, from: Ref)
    requires Inv(db) && AliveThroughout(db, statements, from)
    requires from.table == Child(fk) && Immutable(from.table) && Immutable(Parent(fk))
    ensures Names(db, fk, from) && Names(Run(db, statements), fk, from)
    ensures var to, later := Target(db, fk, from), Run(db, statements);
            && Target(later, fk, from) == to
            && to in db && to in later && later[to] == db[to]
            && Links(later, fk, from, to)
    ensures WellFormed(from.table, Run(db, statements)[from])
  {
    hide Run;
    hide AliveThroughout;
    AliveNow(db, statements, from);
    ReferencedRowStays(db, statements, fk, from);
    EvidenceNeverChanges(db, statements, from);
    EvidenceNeverChanges(db, statements, Target(db, fk, from));
    RunKeeps(db, statements);
    EveryReferenceLeads(Run(db, statements), fk, from);
    hide Links;
    hide Names;
  }

  /** While a baseline is not deleted, its target stays the very same snapshot, observed, with unchanged figures, of
      the baseline's own data source, property and workspace. */
  lemma BaselineTargetIsPinned(db: Rows, statements: seq<Statement>, baseline: Ref)
    requires Reachable(db) && baseline.table.Baselines? && AliveThroughout(db, statements, baseline)
    ensures Names(db, BaselinesTarget, baseline) && Names(Run(db, statements), BaselinesTarget, baseline)
    ensures var target, later := Target(db, BaselinesTarget, baseline), Run(db, statements);
            && Target(later, BaselinesTarget, baseline) == target
            && target in db && target in later && later[target] == db[target]
            && Origin in later[target] && later[target][Origin] == OBSERVED
            && Agree(later, baseline, target, DataSourceId) && Agree(later, baseline, target, PropertyId)
            && Agree(later, baseline, target, WorkspaceId)
  {
    ReachableKeeps(db);
    ReferenceIsPinned(db, statements, BaselinesTarget, baseline);
    assert TENANT in Pairs(BaselinesTarget) && SAME_PROPERTY in Pairs(BaselinesTarget)
        && SAME_SOURCE in Pairs(BaselinesTarget) && Pair(TargetOrigin, Origin) in Pairs(BaselinesTarget);
  }

  /** While a comparable is not deleted, its baseline and its snapshot stay the very same rows, unchanged, all three
      of one data source, and the origin it records is the snapshot's own. */
  lemma ComparableIsPinned(db: Rows, statements: seq<Statement>, comparable: Ref)
    requires Reachable(db) && comparable.table.Comparables? && AliveThroughout(db, statements, comparable)
    ensures Names(db, ComparablesSnapshot, comparable) && Names(db, ComparablesBaseline, comparable)
    ensures var snapshot, later := Target(db, ComparablesSnapshot, comparable), Run(db, statements);
            && snapshot in db && snapshot in later && later[snapshot] == db[snapshot]
            && Agree(later, comparable, snapshot, DataSourceId) && Agree(later, comparable, snapshot, Origin)
    ensures var baseline, later := Target(db, ComparablesBaseline, comparable), Run(db, statements);
            && baseline in db && baseline in later && later[baseline] == db[baseline]
            && Agree(later, comparable, baseline, DataSourceId)
  {
    ReachableKeeps(db);
    ComparableSnapshotIsPinned(db, statements, comparable);
    ReferenceIsPinned(db, statements, ComparablesBaseline, comparable);
    assert SAME_SOURCE in Pairs(ComparablesBaseline);
  }

  lemma ComparableSnapshotIsPinned(db: Rows, statements: seq<Statement>, comparable: Ref)
    requires Inv(db) && comparable.table.Comparables? && AliveThroughout(db, statements, comparable)
    ensures Names(db, ComparablesSnapshot, comparable)
    ensures var snapshot, later := Target(db, ComparablesSnapshot, comparable), Run(db, statements);
            && snapshot in db && snapshot in later && later[snapshot] == db[snapshot]
            && Agree(later, comparable, snapshot, DataSourceId) && Agree(later, comparable, snapshot, Origin)
  {
    ReferenceIsPinned(db, statements, ComparablesSnapshot, comparable);
    assert SAME_SOURCE in Pairs(ComparablesSnapshot) && Pair(Origin, Origin) in Pairs(ComparablesSnapshot);
  }

  lemma IdentityIsThere(row: Row, c: Column)
    requires WellFormed(Bookings, row) && c in BOOKING_IDENTITY
    ensures c in row
  {
  }

  lemma BookingStep(db: Rows, s: Statement, booking: Ref, c: Column)
    requires RowsOk(db) && booking in db && booking in Execute(db, s) && booking.table.Bookings? && c in BOOKING_IDENTITY
    ensures c in db[booking] && c in Execute(db, s)[booking] && Execute(db, s)[booking][c] == db[booking][c]
  {
    hide Required;
    hide Checked;
    IdentityIsThere(db[booking], c);
    hide WellFormed;
    hide NoDuplicate;
    hide References;
    hide Referenced;
    hide SameKey;
  }

  /** While a booking is not deleted none of its identity columns ever changes. */
  lemma {:induction false} BookingIdentityNeverChanges(db: Rows, statements: seq<Statement>, booking: Ref, c: Column)
    requires Inv(db) && booking.table.Bookings? && AliveThroughout(db, statements, booking)
    requires c in {Id, WorkspaceId, PropertyId, DataSourceId, SourceRecordId, FirstImportJobId, CreatedAt}
    ensures booking in db && booking in Run(db, statements) && c in db[booking] && c in Run(db, statements)[booking]
    ensures Run(db, statements)[booking][c] == db[booking][c]
    decreases |statements|
  {
    AliveNow(db, statements, booking);
    if statements == [] {
      assert WellFormed(Bookings, db[booking]);
    } else {
      AliveBefore(db, statements, booking);
      BookingIdentityNeverChanges(db, statements[..|statements| - 1], booking, c);
      RunKeeps(db, statements[..|statements| - 1]);
      BookingStep(Run(db, statements[..|statements| - 1]), statements[|statements| - 1], booking, c);
    }
  }
}
