/** What the unique keys, the triggers and the guards come to, with the columns and tables written out
    (services/api/alembic/versions/0003_canonical_data_model.py ... 0008_labor_ingestion.py). */
module TenantKeys {
  import opened Schema
  import opened TenantCore
  import opened TenantRuns

  /** Two rows have the same values in all of these columns. */
  predicate SameIn(a: Row, b: Row, columns: set<Column>) {
    forall c | c in columns :: c in a && c in b && a[c] == b[c]
  }

  /** Two rows of a table stand for the same thing. */
  predicate SameThing(t: Table, a: Row, b: Row) {
    match t
    case Workspaces => SameIn(a, b, {Slug})
    case Properties => SameIn(a, b, {WorkspaceId, Slug})
    case DataSources => false
    case ImportJobs => false
    case ImportFiles => false
    case BookingChannels => SameIn(a, b, {WorkspaceId, PropertyId, NormalizedName})
    case BookingMappingProfiles => SameIn(a, b, {WorkspaceId, DataSourceId})
    case Bookings => SameIn(a, b, {WorkspaceId, DataSourceId, SourceRecordId})
    case BookingImportRows => SameIn(a, b, {WorkspaceId, ImportFileId, RowNumber})
    case RoomInventoryDaily => SameIn(a, b, {WorkspaceId, PropertyId, StayDate})
    case BookingSnapshots => SameIn(a, b, {WorkspaceId, DataSourceId, SnapshotLocalDate, StayDate})
    case Baselines => SameIn(a, b, {WorkspaceId, TargetSnapshotId, CalculationVersion})
    case Comparables => SameIn(a, b, {WorkspaceId, BaselineId, SnapshotId}) || SameIn(a, b, {WorkspaceId, BaselineId, RecencyRank})
    case Suppliers => false
    case SupplierIdentifiers => SameIn(a, b, {WorkspaceId, Kind, NormalizedValue})
    case SupplierAliases => SameIn(a, b, {WorkspaceId, SupplierId, NormalizedName})
    case SupplierReviews => SameIn(a, b, {WorkspaceId, ProvisionalSupplierId, CandidateSupplierId})
    case Invoices => SameIn(a, b, {WorkspaceId, PropertyId, SupplierId, NormalizedInvoiceNumber, InvoiceDate, DocumentKind})
    case InvoiceLines => SameIn(a, b, {WorkspaceId, InvoiceId, SourceLineNumber})
    case InvoiceMappingProfiles => SameIn(a, b, {WorkspaceId, DataSourceId})
    case InvoiceImportRows => SameIn(a, b, {WorkspaceId, ImportFileId, RowNumber})
    case LaborSnapshots => SameIn(a, b, {WorkspaceId, DataSourceId, SnapshotLocalDate})
    case LaborEntries => SameIn(a, b, {WorkspaceId, LaborSnapshotId, SourceRowNumber})
    case LaborMappingProfiles => SameIn(a, b, {WorkspaceId, DataSourceId})
    case LaborImportRows => SameIn(a, b, {WorkspaceId, ImportFileId, SourceRowNumber})
  }

  lemma CollidingIsSame(k: UniqueKey, a: Row, b: Row)
    ensures Collides(k, a, b) <==> SameIn(a, b, KeyColumns(k))
  {
    hide KeyColumns;
  }

  /** Rows collide exactly when they stand for the same thing, table by table. */
  lemma WhatCollides(t: Table, a: Row, b: Row)
    ensures (exists k: UniqueKey :: KeyTable(k) == t && Collides(k, a, b)) <==> SameThing(t, a, b)
  {
    hide SameIn;
    hide Collides;
    forall k: UniqueKey | KeyTable(k) == t && Collides(k, a, b) ensures SameThing(t, a, b) {
      CollidingIsSame(k, a, b);
    }
    if SameThing(t, a, b) {
      SomeKeyCollides(t, a, b);
    }
  }

  lemma SomeKeyCollides(t: Table, a: Row, b: Row)
    requires SameThing(t, a, b)
    ensures exists k: UniqueKey :: KeyTable(k) == t && Collides(k, a, b)
  {
    hide SameIn;
    hide Collides;
    match t
    case Workspaces => CollidingIsSame(WorkspaceSlug, a, b);
    case Properties => CollidingIsSame(PropertySlug, a, b);
    case BookingChannels => CollidingIsSame(ChannelName, a, b);
    case BookingMappingProfiles => CollidingIsSame(BookingProfileOfSource, a, b);
    case Bookings => CollidingIsSame(BookingOfSource, a, b);
    case BookingImportRows => CollidingIsSame(BookingRowOfFile, a, b);
    case RoomInventoryDaily => CollidingIsSame(InventoryOfNight, a, b);
    case BookingSnapshots => CollidingIsSame(SnapshotSlot, a, b);
    case Baselines => CollidingIsSame(BaselineVersion, a, b);
    case Comparables =>
      CollidingIsSame(ComparableSnapshot, a, b);
      CollidingIsSame(ComparableRank, a, b);
    case SupplierIdentifiers => CollidingIsSame(SupplierIdentity, a, b);
    case SupplierAliases => CollidingIsSame(SupplierAlias, a, b);
    case SupplierReviews => CollidingIsSame(ReviewPair, a, b);
    case Invoices => CollidingIsSame(InvoiceIdentity, a, b);
    case InvoiceLines => CollidingIsSame(LineOfInvoice, a, b);
    case InvoiceMappingProfiles => CollidingIsSame(InvoiceProfileOfSource, a, b);
    case InvoiceImportRows => CollidingIsSame(InvoiceRowOfFile, a, b);
    case LaborSnapshots => CollidingIsSame(LaborDayOfSource, a, b);
    case LaborEntries => CollidingIsSame(EntryOfLaborDay, a, b);
    case LaborMappingProfiles => CollidingIsSame(LaborProfileOfSource, a, b);
    case LaborImportRows => CollidingIsSame(LaborRowOfFile, a, b);
  }

  /** In every reachable store no two rows stand for the same thing. */
  lemma NothingIsThereTwice(db: Rows, a: Ref, b: Ref)
    requires Reachable(db) && a in db && b in db && a.table == b.table && a != b
    ensures !SameThing(a.table, db[a], db[b])
  {
    ReachableKeeps(db);
    WhatCollides(a.table, db[a], db[b]);
    hide SameThing;
    hide Collides;
  }

  predicate HasAll(row: Row, columns: set<Column>) {
    forall c | c in columns :: c in row
  }

  predicate SaysHowItIsKnown(row: Row) {
    Origin in row && (row[Origin] == Text("OBSERVED") || row[Origin] == Text("RECONSTRUCTED_APPROXIMATE"))
  }

  /** What a row must say: the columns that may not be NULL, how a snapshot is known, that a baseline's target was observed,
      and that a review compares two suppliers. */
  predicate SaysEnough(t: Table, row: Row) {
    match t
    case Workspaces => HasAll(row, {Slug})
    case Properties => HasAll(row, {WorkspaceId, Slug})
    case DataSources => HasAll(row, {WorkspaceId, PropertyId})
    case ImportJobs => HasAll(row, {WorkspaceId, PropertyId, DataSourceId})
    case ImportFiles => HasAll(row, {WorkspaceId, ImportJobId})
    case BookingChannels => HasAll(row, {WorkspaceId, PropertyId, NormalizedName})
    case BookingMappingProfiles => HasAll(row, {WorkspaceId, PropertyId, DataSourceId})
    case Bookings => HasAll(row, {WorkspaceId, PropertyId, DataSourceId, SourceRecordId, ChannelId, FirstImportJobId, LastImportJobId, CreatedAt})
    case BookingImportRows => HasAll(row, {WorkspaceId, ImportJobId, ImportFileId, RowNumber})
    case RoomInventoryDaily => HasAll(row, {WorkspaceId, PropertyId, StayDate})
    case BookingSnapshots => HasAll(row, {WorkspaceId, PropertyId, DataSourceId, SnapshotLocalDate, StayDate, Origin}) && SaysHowItIsKnown(row)
    case Baselines => HasAll(row, {WorkspaceId, PropertyId, DataSourceId, TargetSnapshotId, TargetOrigin, CalculationVersion}) && row[TargetOrigin] == Text("OBSERVED")
    case Comparables => HasAll(row, {WorkspaceId, PropertyId, DataSourceId, BaselineId, SnapshotId, Origin, RecencyRank}) && SaysHowItIsKnown(row)
    case Suppliers => HasAll(row, {WorkspaceId, NormalizedName})
    case SupplierIdentifiers => HasAll(row, {WorkspaceId, SupplierId, Kind, NormalizedValue})
    case SupplierAliases => HasAll(row, {WorkspaceId, SupplierId, NormalizedName})
    case SupplierReviews => HasAll(row, {WorkspaceId, ProvisionalSupplierId, CandidateSupplierId}) && row[ProvisionalSupplierId] != row[CandidateSupplierId]
    case Invoices => HasAll(row, {WorkspaceId, PropertyId, DataSourceId, SupplierId, NormalizedInvoiceNumber, InvoiceDate, DocumentKind, SourceImportJobId, SourceImportFileId})
    case InvoiceLines => HasAll(row, {WorkspaceId, InvoiceId, SourceLineNumber})
    case InvoiceMappingProfiles => HasAll(row, {WorkspaceId, PropertyId, DataSourceId})
    case InvoiceImportRows => HasAll(row, {WorkspaceId, ImportJobId, ImportFileId, RowNumber})
    case LaborSnapshots => HasAll(row, {WorkspaceId, PropertyId, DataSourceId, SnapshotLocalDate, SourceImportJobId, SourceImportFileId})
    case LaborEntries => HasAll(row, {WorkspaceId, LaborSnapshotId, SourceRowNumber})
    case LaborMappingProfiles => HasAll(row, {WorkspaceId, PropertyId, DataSourceId})
    case LaborImportRows => HasAll(row, {WorkspaceId, ImportJobId, ImportFileId, SourceRowNumber})
  }

  /** A row is well formed exactly when it has an id and says enough. */
  lemma WhatIsWellFormed(t: Table, row: Row)
    ensures WellFormed(t, row) <==> Id in row && row[Id].Uuid? && SaysEnough(t, row)
  {
    RequiredIsHasAll(t, row);
    hide HasAll;
  }

  lemma RequiredIsHasAll(t: Table, row: Row)
    ensures Required(t) <= row.Keys <==> HasAll(row, Required(t))
  {
    hide Required;
  }

  /** The table has a row with these values, under the names it gives them; a row that leaves one of them open refers to
      nothing. */
  predicate Finds(db: Rows, t: Table, row: Row, pairs: set<Pair>) {
    (exists p | p in pairs :: p.own !in row) || exists r | r in db :: r.table == t && Matches(row, db[r], pairs)
  }

  predicate Matches(row: Row, other: Row, pairs: set<Pair>) {
    forall p | p in pairs :: p.own in row && p.theirs in other && row[p.own] == other[p.theirs]
  }

  function Same(c: Column): Pair {
    Pair(c, c)
  }

  /** A property of the row's own workspace. */
  predicate OfProperty(db: Rows, row: Row) {
    Finds(db, Properties, row, {Same(WorkspaceId), Pair(PropertyId, Id)})
  }

  /** A data source of its own property. */
  predicate OfSource(db: Rows, row: Row) {
    Finds(db, DataSources, row, {Same(WorkspaceId), Same(PropertyId), Pair(DataSourceId, Id)})
  }

  /** A job of its own data source. */
  predicate OfJob(db: Rows, row: Row, job: Column) {
    Finds(db, ImportJobs, row, {Same(WorkspaceId), Same(PropertyId), Same(DataSourceId), Pair(job, Id)})
  }

  /** A file of the job it names. */
  predicate OfFile(db: Rows, row: Row, job: Column, file: Column) {
    Finds(db, ImportFiles, row, {Same(WorkspaceId), Pair(job, ImportJobId), Pair(file, Id)})
  }

  predicate OfSupplier(db: Rows, row: Row, supplier: Column) {
    Finds(db, Suppliers, row, {Same(WorkspaceId), Pair(supplier, Id)})
  }

  /** Everything a row of each table refers to is there. */
  predicate FindsAll(db: Rows, t: Table, row: Row) {
    match t
    case Workspaces => true
    case Properties => Finds(db, Workspaces, row, {Pair(WorkspaceId, Id)})
    case DataSources => OfProperty(db, row)
    case ImportJobs => OfSource(db, row)
    case ImportFiles => Finds(db, ImportJobs, row, {Same(WorkspaceId), Pair(ImportJobId, Id)})
    case BookingChannels => OfProperty(db, row)
    case BookingMappingProfiles => OfSource(db, row)
    case Bookings =>
      && OfSource(db, row)
      && Finds(db, BookingChannels, row, {Same(WorkspaceId), Same(PropertyId), Pair(ChannelId, Id)})
      && OfJob(db, row, FirstImportJobId)
      && OfJob(db, row, LastImportJobId)
    case BookingImportRows => OfFile(db, row, ImportJobId, ImportFileId)
    case RoomInventoryDaily => OfProperty(db, row)
    case BookingSnapshots => OfProperty(db, row) && OfSource(db, row)
    case Baselines =>
      && OfProperty(db, row)
      && OfSource(db, row)
      && Finds(db, BookingSnapshots, row, {Same(WorkspaceId), Same(PropertyId), Same(DataSourceId), Pair(TargetSnapshotId, Id), Pair(TargetOrigin, Origin)})
    case Comparables =>
      && Finds(db, Baselines, row, {Same(WorkspaceId), Same(PropertyId), Same(DataSourceId), Pair(BaselineId, Id)})
      && Finds(db, BookingSnapshots, row, {Same(WorkspaceId), Same(PropertyId), Same(DataSourceId), Pair(SnapshotId, Id), Same(Origin)})
    case Suppliers => Finds(db, Workspaces, row, {Pair(WorkspaceId, Id)})
    case SupplierIdentifiers => OfSupplier(db, row, SupplierId)
    case SupplierAliases =>
      && OfSupplier(db, row, SupplierId)
      && Finds(db, DataSources, row, {Same(WorkspaceId), Pair(DataSourceId, Id)})
    case SupplierReviews => OfSupplier(db, row, ProvisionalSupplierId) && OfSupplier(db, row, CandidateSupplierId)
    case Invoices =>
      && OfProperty(db, row)
      && OfSource(db, row)
      && OfSupplier(db, row, SupplierId)
      && OfJob(db, row, SourceImportJobId)
      && OfFile(db, row, SourceImportJobId, SourceImportFileId)
    case InvoiceLines => Finds(db, Invoices, row, {Same(WorkspaceId), Pair(InvoiceId, Id)})
    case InvoiceMappingProfiles => OfSource(db, row)
    case InvoiceImportRows => OfFile(db, row, ImportJobId, ImportFileId)
    case LaborSnapshots =>
      && OfProperty(db, row)
      && OfSource(db, row)
      && OfJob(db, row, SourceImportJobId)
      && OfFile(db, row, SourceImportJobId, SourceImportFileId)
    case LaborEntries => Finds(db, LaborSnapshots, row, {Same(WorkspaceId), Pair(LaborSnapshotId, Id)})
    case LaborMappingProfiles => OfSource(db, row)
    case LaborImportRows => OfFile(db, row, ImportJobId, ImportFileId)
  }

  lemma FindsIsSatisfied(db: Rows, fk: ForeignKey, row: Row, pairs: set<Pair>)
    requires pairs == Pairs(fk)
    ensures Satisfied(db, fk, row) <==> Finds(db, Parent(fk), row, pairs)
  {
    hide Pairs;
    hide Parent;
    forall r | r in db ensures Refers(fk, row, db[r]) <==> Matches(row, db[r], pairs) {
    }
    hide Refers;
    hide Matches;
  }

  lemma PropertyKey(db: Rows, fk: ForeignKey, row: Row)
    requires fk in {SnapshotsProperty, BaselinesProperty, InvoicesProperty, LaborProperty, SourcesProperty, ChannelsProperty, InventoryProperty}
    ensures Satisfied(db, fk, row) <==> OfProperty(db, row)
  {
    hide Finds;
    hide Satisfied;
    FindsIsSatisfied(db, fk, row, {Same(WorkspaceId), Pair(PropertyId, Id)});
  }

  lemma SourceKey(db: Rows, fk: ForeignKey, row: Row)
    requires fk in {BookingsSource, SnapshotsSource, BaselinesSource, InvoicesSource, LaborSource, JobsSource, BookingProfilesSource,
                    InvoiceProfilesSource, LaborProfilesSource}
    ensures Satisfied(db, fk, row) <==> OfSource(db, row)
  {
    hide Finds;
    hide Satisfied;
    FindsIsSatisfied(db, fk, row, {Same(WorkspaceId), Same(PropertyId), Pair(DataSourceId, Id)});
  }

  lemma JobKey(db: Rows, fk: ForeignKey, row: Row, job: Column)
    requires
      || (fk in {InvoicesJob, LaborJob} && job == SourceImportJobId)
      || (fk.BookingsFirstJob? && job == FirstImportJobId)
      || (fk.BookingsLastJob? && job == LastImportJobId)
    ensures Satisfied(db, fk, row) <==> OfJob(db, row, job)
  {
    hide Finds;
    hide Satisfied;
    FindsIsSatisfied(db, fk, row, {Same(WorkspaceId), Same(PropertyId), Same(DataSourceId), Pair(job, Id)});
  }

  lemma FileKey(db: Rows, fk: ForeignKey, row: Row, job: Column, file: Column)
    requires
      || (fk in {InvoicesFile, LaborFile} && job == SourceImportJobId && file == SourceImportFileId)
      || (fk in {BookingRowsFile, InvoiceRowsFile, LaborRowsFile} && job == ImportJobId && file == ImportFileId)
    ensures Satisfied(db, fk, row) <==> OfFile(db, row, job, file)
  {
    hide Finds;
    hide Satisfied;
    FindsIsSatisfied(db, fk, row, {Same(WorkspaceId), Pair(job, ImportJobId), Pair(file, Id)});
  }

  lemma SupplierKey(db: Rows, fk: ForeignKey, row: Row, supplier: Column)
    requires
      || (fk in {AliasesSupplier, InvoicesSupplier, IdentifiersSupplier} && supplier == SupplierId)
      || (fk.ReviewsProvisional? && supplier == ProvisionalSupplierId)
      || (fk.ReviewsCandidate? && supplier == CandidateSupplierId)
    ensures Satisfied(db, fk, row) <==> OfSupplier(db, row, supplier)
  {
    hide Finds;
    hide Satisfied;
    FindsIsSatisfied(db, fk, row, {Same(WorkspaceId), Pair(supplier, Id)});
  }

  lemma KeysOfBookings(db: Rows, row: Row)
    ensures References(db, Bookings, row) <==> FindsAll(db, Bookings, row)
  {
    hide Finds;
    hide Satisfied;
    hide OfProperty;
    hide OfSource;
    hide OfJob;
    hide OfFile;
    hide OfSupplier;
    SourceKey(db, BookingsSource, row);
    FindsIsSatisfied(db, BookingsChannel, row, {Same(WorkspaceId), Same(PropertyId), Pair(ChannelId, Id)});
    JobKey(db, BookingsFirstJob, row, FirstImportJobId);
    JobKey(db, BookingsLastJob, row, LastImportJobId);
    hide Pairs;
  }

  lemma KeysOfBookingSnapshots(db: Rows, row: Row)
    ensures References(db, BookingSnapshots, row) <==> FindsAll(db, BookingSnapshots, row)
  {
    hide Finds;
    hide Satisfied;
    hide OfProperty;
    hide OfSource;
    hide OfJob;
    hide OfFile;
    hide OfSupplier;
    PropertyKey(db, SnapshotsProperty, row);
    SourceKey(db, SnapshotsSource, row);
    hide Pairs;
  }

  lemma KeysOfBaselines(db: Rows, row: Row)
    ensures References(db, Baselines, row) <==> FindsAll(db, Baselines, row)
  {
    hide Finds;
    hide Satisfied;
    hide OfProperty;
    hide OfSource;
    hide OfJob;
    hide OfFile;
    hide OfSupplier;
    PropertyKey(db, BaselinesProperty, row);
    SourceKey(db, BaselinesSource, row);
    FindsIsSatisfied(db, BaselinesTarget, row, {Same(WorkspaceId), Same(PropertyId), Same(DataSourceId), Pair(TargetSnapshotId, Id), Pair(TargetOrigin, Origin)});
    hide Pairs;
  }

  lemma KeysOfComparables(db: Rows, row: Row)
    ensures References(db, Comparables, row) <==> FindsAll(db, Comparables, row)
  {
    hide Finds;
    hide Satisfied;
    hide OfProperty;
    hide OfSource;
    hide OfJob;
    hide OfFile;
    hide OfSupplier;
    FindsIsSatisfied(db, ComparablesBaseline, row, {Same(WorkspaceId), Same(PropertyId), Same(DataSourceId), Pair(BaselineId, Id)});
    FindsIsSatisfied(db, ComparablesSnapshot, row, {Same(WorkspaceId), Same(PropertyId), Same(DataSourceId), Pair(SnapshotId, Id), Same(Origin)});
    hide Pairs;
  }

  lemma KeysOfSupplierAliases(db: Rows, row: Row)
    ensures References(db, SupplierAliases, row) <==> FindsAll(db, SupplierAliases, row)
  {
    hide Finds;
    hide Satisfied;
    hide OfProperty;
    hide OfSource;
    hide OfJob;
    hide OfFile;
    hide OfSupplier;
    SupplierKey(db, AliasesSupplier, row, SupplierId);
    FindsIsSatisfied(db, AliasesSource, row, {Same(WorkspaceId), Pair(DataSourceId, Id)});
    hide Pairs;
  }

  lemma KeysOfSupplierReviews(db: Rows, row: Row)
    ensures References(db, SupplierReviews, row) <==> FindsAll(db, SupplierReviews, row)
  {
    hide Finds;
    hide Satisfied;
    hide OfProperty;
    hide OfSource;
    hide OfJob;
    hide OfFile;
    hide OfSupplier;
    SupplierKey(db, ReviewsProvisional, row, ProvisionalSupplierId);
    SupplierKey(db, ReviewsCandidate, row, CandidateSupplierId);
    hide Pairs;
  }

  lemma KeysOfInvoices(db: Rows, row: Row)
    ensures References(db, Invoices, row) <==> FindsAll(db, Invoices, row)
  {
    hide Finds;
    hide Satisfied;
    hide OfProperty;
    hide OfSource;
    hide OfJob;
    hide OfFile;
    hide OfSupplier;
    PropertyKey(db, InvoicesProperty, row);
    SourceKey(db, InvoicesSource, row);
    SupplierKey(db, InvoicesSupplier, row, SupplierId);
    JobKey(db, InvoicesJob, row, SourceImportJobId);
    FileKey(db, InvoicesFile, row, SourceImportJobId, SourceImportFileId);
    hide Pairs;
  }

  lemma KeysOfLaborSnapshots(db: Rows, row: Row)
    ensures References(db, LaborSnapshots, row) <==> FindsAll(db, LaborSnapshots, row)
  {
    hide Finds;
    hide Satisfied;
    hide OfProperty;
    hide OfSource;
    hide OfJob;
    hide OfFile;
    hide OfSupplier;
    PropertyKey(db, LaborProperty, row);
    SourceKey(db, LaborSource, row);
    JobKey(db, LaborJob, row, SourceImportJobId);
    FileKey(db, LaborFile, row, SourceImportJobId, SourceImportFileId);
    hide Pairs;
  }

  lemma KeysWithinTheWorkspace(db: Rows, t: Table, row: Row)
    requires t in {Properties, ImportFiles, Suppliers, InvoiceLines, LaborEntries}
    ensures References(db, t, row) <==> FindsAll(db, t, row)
  {
    hide Finds;
    hide Satisfied;
    hide OfProperty;
    hide OfSource;
    hide OfJob;
    hide OfFile;
    hide OfSupplier;
    match t
    case Properties => FindsIsSatisfied(db, PropertiesWorkspace, row, {Pair(WorkspaceId, Id)});
    case ImportFiles => FindsIsSatisfied(db, FilesJob, row, {Same(WorkspaceId), Pair(ImportJobId, Id)});
    case Suppliers => FindsIsSatisfied(db, SuppliersWorkspace, row, {Pair(WorkspaceId, Id)});
    case InvoiceLines => FindsIsSatisfied(db, LinesInvoice, row, {Same(WorkspaceId), Pair(InvoiceId, Id)});
    case LaborEntries => FindsIsSatisfied(db, EntriesLabor, row, {Same(WorkspaceId), Pair(LaborSnapshotId, Id)});
  }

  lemma KeysWithinTheProperty(db: Rows, t: Table, row: Row)
    requires t in {DataSources, ImportJobs, BookingChannels, BookingMappingProfiles, RoomInventoryDaily, InvoiceMappingProfiles, LaborMappingProfiles}
    ensures References(db, t, row) <==> FindsAll(db, t, row)
  {
    hide Finds;
    hide Satisfied;
    hide OfProperty;
    hide OfSource;
    hide OfJob;
    hide OfFile;
    hide OfSupplier;
    hide Pairs;
    hide Parent;
    match t
    case DataSources => PropertyKey(db, SourcesProperty, row);
    case ImportJobs => SourceKey(db, JobsSource, row);
    case BookingChannels => PropertyKey(db, ChannelsProperty, row);
    case BookingMappingProfiles => SourceKey(db, BookingProfilesSource, row);
    case RoomInventoryDaily => PropertyKey(db, InventoryProperty, row);
    case InvoiceMappingProfiles => SourceKey(db, InvoiceProfilesSource, row);
    case LaborMappingProfiles => SourceKey(db, LaborProfilesSource, row);
  }

  lemma KeysOfFilesAndSuppliers(db: Rows, t: Table, row: Row)
    requires t in {BookingImportRows, SupplierIdentifiers, InvoiceImportRows, LaborImportRows}
    ensures References(db, t, row) <==> FindsAll(db, t, row)
  {
    hide Finds;
    hide Satisfied;
    hide OfProperty;
    hide OfSource;
    hide OfJob;
    hide OfFile;
    hide OfSupplier;
    hide Pairs;
    hide Parent;
    match t
    case BookingImportRows => FileKey(db, BookingRowsFile, row, ImportJobId, ImportFileId);
    case SupplierIdentifiers => SupplierKey(db, IdentifiersSupplier, row, SupplierId);
    case InvoiceImportRows => FileKey(db, InvoiceRowsFile, row, ImportJobId, ImportFileId);
    case LaborImportRows => FileKey(db, LaborRowsFile, row, ImportJobId, ImportFileId);
  }

  /** The foreign keys of a table are kept exactly when everything its row refers to is there. */
  lemma WhatARowRefersTo(db: Rows, t: Table, row: Row)
    ensures References(db, t, row) <==> FindsAll(db, t, row)
  {
    hide Finds;
    hide Satisfied;
    hide OfProperty;
    hide OfSource;
    hide OfJob;
    hide OfFile;
    hide OfSupplier;
    hide Pairs;
    hide Parent;
    match t
    case Workspaces =>
    case Properties => KeysWithinTheWorkspace(db, t, row);
    case DataSources => KeysWithinTheProperty(db, t, row);
    case ImportJobs => KeysWithinTheProperty(db, t, row);
    case ImportFiles => KeysWithinTheWorkspace(db, t, row);
    case BookingChannels => KeysWithinTheProperty(db, t, row);
    case BookingMappingProfiles => KeysWithinTheProperty(db, t, row);
    case Bookings => KeysOfBookings(db, row);
    case BookingImportRows => KeysOfFilesAndSuppliers(db, t, row);
    case RoomInventoryDaily => KeysWithinTheProperty(db, t, row);
    case BookingSnapshots => KeysOfBookingSnapshots(db, row);
    case Baselines => KeysOfBaselines(db, row);
    case Comparables => KeysOfComparables(db, row);
    case Suppliers => KeysWithinTheWorkspace(db, t, row);
    case SupplierIdentifiers => KeysOfFilesAndSuppliers(db, t, row);
    case SupplierAliases => KeysOfSupplierAliases(db, row);
    case SupplierReviews => KeysOfSupplierReviews(db, row);
    case Invoices => KeysOfInvoices(db, row);
    case InvoiceLines => KeysWithinTheWorkspace(db, t, row);
    case InvoiceMappingProfiles => KeysWithinTheProperty(db, t, row);
    case InvoiceImportRows => KeysOfFilesAndSuppliers(db, t, row);
    case LaborSnapshots => KeysOfLaborSnapshots(db, row);
    case LaborEntries => KeysWithinTheWorkspace(db, t, row);
    case LaborMappingProfiles => KeysWithinTheProperty(db, t, row);
    case LaborImportRows => KeysOfFilesAndSuppliers(db, t, row);
  }

  /** A row is let in exactly when it says enough, its primary key is free, what it refers to is there, and nothing in its
      table stands for the same thing. */
  lemma WhatIsLetIn(db: Rows, t: Table, row: Row)
    ensures InsertAllowed(db, t, row)
       <==> && Id in row && row[Id].Uuid? && SaysEnough(t, row) && Ref(t, row[Id].n) !in db && FindsAll(db, t, row)
            && forall r :: r in db && r.table == t ==> !SameThing(t, row, db[r])
  {
    WhatIsWellFormed(t, row);
    WhatARowRefersTo(db, t, row);
    hide WellFormed;
    hide SaysEnough;
    hide References;
    hide FindsAll;
    hide Collides;
    hide SameThing;
    forall r | r in db && r.table == t
      ensures (exists k: UniqueKey :: KeyTable(k) == t && Collides(k, row, db[r])) <==> SameThing(t, row, db[r])
    {
      WhatCollides(t, row, db[r]);
    }
  }

  /** A row is in order among the others. */
  predicate IsInOrder(db: Rows, ref: Ref)
    requires ref in db
  {
    var row := db[ref];
    && Id in row && row[Id] == Uuid(ref.id) && SaysEnough(ref.table, row) && FindsAll(db, ref.table, row)
    && forall r :: r in db && r.table == ref.table && r != ref ==> !SameThing(ref.table, row, db[r])
  }

  lemma InOrderIsAllowed(db: Rows, ref: Ref)
    requires ref in db
    ensures IsInOrder(db, ref)
       <==> WellFormed(ref.table, db[ref]) && RefOf(ref.table, db[ref]) == ref && References(db, ref.table, db[ref])
            && NoDuplicate(db, ref.table, db[ref], {ref})
  {
    WhatIsWellFormed(ref.table, db[ref]);
    WhatARowRefersTo(db, ref.table, db[ref]);
    hide WellFormed;
    hide SaysEnough;
    hide References;
    hide FindsAll;
    hide Collides;
    hide SameThing;
    forall r | r in db && r.table == ref.table
      ensures (exists k: UniqueKey :: KeyTable(k) == ref.table && Collides(k, db[ref], db[r])) <==> SameThing(ref.table, db[ref], db[r])
    {
      WhatCollides(ref.table, db[ref], db[r]);
    }
  }

  /** The invariant of every run: each row is in order. */
  lemma WhatIsInOrder(db: Rows)
    ensures Inv(db) <==> forall ref :: ref in db ==> IsInOrder(db, ref)
  {
    forall ref | ref in db
      ensures IsInOrder(db, ref)
         <==> WellFormed(ref.table, db[ref]) && RefOf(ref.table, db[ref]) == ref && References(db, ref.table, db[ref])
              && NoDuplicate(db, ref.table, db[ref], {ref})
    {
      InOrderIsAllowed(db, ref);
    }
    hide IsInOrder;
    hide WellFormed;
    hide Satisfied;
    hide Collides;
  }

  /** Only `at` may differ from what was there before. */
  ghost predicate OnlyAt(before: Rows, after: Rows, at: set<Ref>) {
    forall q | q !in at :: (q in before <==> q in after) && (q in before ==> before[q] == after[q])
  }

  /** A statement that is allowed touches the rows it names, and no other; one that is refused touches none. */
  lemma WhatAStatementDoes(db: Rows, s: Statement)
    ensures !Allowed(db, s) ==> Execute(db, s) == db
    ensures Allowed(db, s) ==>
              var after := Execute(db, s);
              match s
              case Insert(t, row) =>
                var ref := Ref(t, row[Id].n);
                ref !in db && ref in after && after[ref] == row && OnlyAt(db, after, {ref})
              case Update(from, row) =>
                var ref := Ref(from.table, row[Id].n);
                from in db && (ref != from ==> from !in after) && ref in after && after[ref] == row && OnlyAt(db, after, {from, ref})
              case Delete(ref) =>
                ref in db && ref !in after && OnlyAt(db, after, {ref})
  {
    hide References;
    hide Referenced;
    hide NoDuplicate;
    hide Collides;
  }

  /** The triggers refuse every change of evidence, and of a booking the changes of its identity, and nothing else. */
  lemma WhatTriggersRefuse(t: Table, before: Row, after: Row)
    ensures TriggersAllow(t, before, after)
       <==> && t !in {BookingSnapshots, Baselines, Comparables, Invoices, InvoiceLines, LaborSnapshots, LaborEntries}
            && (t.Bookings? ==>
                  SameIn(before, after, {Id, WorkspaceId, PropertyId, DataSourceId, SourceRecordId, FirstImportJobId, CreatedAt}))
  {
  }
}
