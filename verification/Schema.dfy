/** The tables, keys and triggers that migrations 0003 to 0008 leave behind
    (services/api/alembic/versions/0003_canonical_data_model.py ... 0008_labor_ingestion.py). */
module Schema {

  datatype Table =
    | Workspaces | Properties | DataSources | ImportJobs | ImportFiles
    | BookingChannels | BookingMappingProfiles | Bookings | BookingImportRows
    | RoomInventoryDaily | BookingSnapshots
    | Baselines | Comparables
    | Suppliers | SupplierIdentifiers | SupplierAliases | SupplierReviews
    | Invoices | InvoiceLines | InvoiceMappingProfiles | InvoiceImportRows
    | LaborSnapshots | LaborEntries | LaborMappingProfiles | LaborImportRows

  /** The columns some key, trigger or check speaks of; every other column of a table is a `Figure`. */
  datatype Column =
    | Id | WorkspaceId | PropertyId | DataSourceId | ImportJobId | ImportFileId
    | Slug | NormalizedName | RowNumber
    | ChannelId | FirstImportJobId | LastImportJobId | SourceRecordId | CreatedAt
    | SnapshotLocalDate | StayDate | Origin
    | TargetSnapshotId | TargetOrigin | CalculationVersion | BaselineId | SnapshotId | RecencyRank
    | SupplierId | Kind | NormalizedValue | ProvisionalSupplierId | CandidateSupplierId
    | SourceImportJobId | SourceImportFileId | NormalizedInvoiceNumber | InvoiceDate | DocumentKind
    | InvoiceId | SourceLineNumber | LaborSnapshotId | SourceRowNumber
    | Figure(name: string)

  datatype Value = Uuid(n: nat) | Text(s: string) | Number(r: real)

  /** A column that is not there is NULL. */
  type Row = map<Column, Value>

  // ---------------------------------------------------------------------------------------------
  // Foreign keys
  // ---------------------------------------------------------------------------------------------

  datatype ForeignKey =
    // 0003
    | PropertiesWorkspace | SourcesProperty | JobsSource | FilesJob
    // 0004
    | ChannelsProperty | BookingProfilesSource
    | BookingsSource | BookingsChannel | BookingsFirstJob | BookingsLastJob | BookingRowsFile
    // 0005
    | InventoryProperty | SnapshotsProperty | SnapshotsSource
    // 0006
    | BaselinesProperty | BaselinesSource | BaselinesTarget | ComparablesBaseline | ComparablesSnapshot
    // 0007
    | SuppliersWorkspace | IdentifiersSupplier | AliasesSupplier | AliasesSource | ReviewsProvisional | ReviewsCandidate
    | InvoicesProperty | InvoicesSource | InvoicesSupplier | InvoicesJob | InvoicesFile
    | LinesInvoice | InvoiceProfilesSource | InvoiceRowsFile
    // 0008
    | LaborProperty | LaborSource | LaborJob | LaborFile | EntriesLabor | LaborProfilesSource | LaborRowsFile

  function Child(fk: ForeignKey): Table {
    match fk
    case PropertiesWorkspace => Properties
    case SourcesProperty => DataSources
    case JobsSource => ImportJobs
    case FilesJob => ImportFiles
    case ChannelsProperty => BookingChannels
    case BookingProfilesSource => BookingMappingProfiles
    case BookingsSource => Bookings
    case BookingsChannel => Bookings
    case BookingsFirstJob => Bookings
    case BookingsLastJob => Bookings
    case BookingRowsFile => BookingImportRows
    case InventoryProperty => RoomInventoryDaily
    case SnapshotsProperty => BookingSnapshots
    case SnapshotsSource => BookingSnapshots
    case BaselinesProperty => Baselines
    case BaselinesSource => Baselines
    case BaselinesTarget => Baselines
    case ComparablesBaseline => Comparables
    case ComparablesSnapshot => Comparables
    case SuppliersWorkspace => Suppliers
    case IdentifiersSupplier => SupplierIdentifiers
    case AliasesSupplier => SupplierAliases
    case AliasesSource => SupplierAliases
    case ReviewsProvisional => SupplierReviews
    case ReviewsCandidate => SupplierReviews
    case InvoicesProperty => Invoices
    case InvoicesSource => Invoices
    case InvoicesSupplier => Invoices
    case InvoicesJob => Invoices
    case InvoicesFile => Invoices
    case LinesInvoice => InvoiceLines
    case InvoiceProfilesSource => InvoiceMappingProfiles
    case InvoiceRowsFile => InvoiceImportRows
    case LaborProperty => LaborSnapshots
    case LaborSource => LaborSnapshots
    case LaborJob => LaborSnapshots
    case LaborFile => LaborSnapshots
    case EntriesLabor => LaborEntries
    case LaborProfilesSource => LaborMappingProfiles
    case LaborRowsFile => LaborImportRows
  }

  function Parent(fk: ForeignKey): Table {
    match fk
    case PropertiesWorkspace => Workspaces
    case SuppliersWorkspace => Workspaces
    case SourcesProperty => Properties
    case ChannelsProperty => Properties
    case InventoryProperty => Properties
    case SnapshotsProperty => Properties
    case BaselinesProperty => Properties
    case InvoicesProperty => Properties
    case LaborProperty => Properties
    case JobsSource => DataSources
    case BookingProfilesSource => DataSources
    case BookingsSource => DataSources
    case SnapshotsSource => DataSources
    case BaselinesSource => DataSources
    case AliasesSource => DataSources
    case InvoicesSource => DataSources
    case InvoiceProfilesSource => DataSources
    case LaborSource => DataSources
    case LaborProfilesSource => DataSources
    case FilesJob => ImportJobs
    case BookingsFirstJob => ImportJobs
    case BookingsLastJob => ImportJobs
    case InvoicesJob => ImportJobs
    case LaborJob => ImportJobs
    case BookingRowsFile => ImportFiles
    case InvoicesFile => ImportFiles
    case InvoiceRowsFile => ImportFiles
    case LaborFile => ImportFiles
    case LaborRowsFile => ImportFiles
    case BookingsChannel => BookingChannels
    case BaselinesTarget => BookingSnapshots
    case ComparablesSnapshot => BookingSnapshots
    case ComparablesBaseline => Baselines
    case IdentifiersSupplier => Suppliers
    case AliasesSupplier => Suppliers
    case ReviewsProvisional => Suppliers
    case ReviewsCandidate => Suppliers
    case InvoicesSupplier => Suppliers
    case LinesInvoice => Invoices
    case EntriesLabor => LaborSnapshots
  }

  /** A column of the referencing row and the column it must equal in the referenced one. */
  datatype Pair = Pair(own: Column, theirs: Column)

  const TENANT := Pair(WorkspaceId, WorkspaceId)
  const SAME_PROPERTY := Pair(PropertyId, PropertyId)
  const SAME_SOURCE := Pair(DataSourceId, DataSourceId)

  function Pairs(fk: ForeignKey): set<Pair> {
    match fk
    case PropertiesWorkspace => {Pair(WorkspaceId, Id)}
    case SuppliersWorkspace => {Pair(WorkspaceId, Id)}
    case SourcesProperty => {TENANT, Pair(PropertyId, Id)}
    case ChannelsProperty => {TENANT, Pair(PropertyId, Id)}
    case InventoryProperty => {TENANT, Pair(PropertyId, Id)}
    case SnapshotsProperty => {TENANT, Pair(PropertyId, Id)}
    case BaselinesProperty => {TENANT, Pair(PropertyId, Id)}
    case InvoicesProperty => {TENANT, Pair(PropertyId, Id)}
    case LaborProperty => {TENANT, Pair(PropertyId, Id)}
    case JobsSource => {TENANT, SAME_PROPERTY, Pair(DataSourceId, Id)}
    case BookingProfilesSource => {TENANT, SAME_PROPERTY, Pair(DataSourceId, Id)}
    case BookingsSource => {TENANT, SAME_PROPERTY, Pair(DataSourceId, Id)}
    case SnapshotsSource => {TENANT, SAME_PROPERTY, Pair(DataSourceId, Id)}
    case BaselinesSource => {TENANT, SAME_PROPERTY, Pair(DataSourceId, Id)}
    case InvoicesSource => {TENANT, SAME_PROPERTY, Pair(DataSourceId, Id)}
    case InvoiceProfilesSource => {TENANT, SAME_PROPERTY, Pair(DataSourceId, Id)}
    case LaborSource => {TENANT, SAME_PROPERTY, Pair(DataSourceId, Id)}
    case LaborProfilesSource => {TENANT, SAME_PROPERTY, Pair(DataSourceId, Id)}
    case AliasesSource => {TENANT, Pair(DataSourceId, Id)}
    case FilesJob => {TENANT, Pair(ImportJobId, Id)}
    case BookingsFirstJob => {TENANT, SAME_PROPERTY, SAME_SOURCE, Pair(FirstImportJobId, Id)}
    case BookingsLastJob => {TENANT, SAME_PROPERTY, SAME_SOURCE, Pair(LastImportJobId, Id)}
    case InvoicesJob => {TENANT, SAME_PROPERTY, SAME_SOURCE, Pair(SourceImportJobId, Id)}
    case LaborJob => {TENANT, SAME_PROPERTY, SAME_SOURCE, Pair(SourceImportJobId, Id)}
    case BookingRowsFile => {TENANT, Pair(ImportJobId, ImportJobId), Pair(ImportFileId, Id)}
    case InvoiceRowsFile => {TENANT, Pair(ImportJobId, ImportJobId), Pair(ImportFileId, Id)}
    case LaborRowsFile => {TENANT, Pair(ImportJobId, ImportJobId), Pair(ImportFileId, Id)}
    case InvoicesFile => {TENANT, Pair(SourceImportJobId, ImportJobId), Pair(SourceImportFileId, Id)}
    case LaborFile => {TENANT, Pair(SourceImportJobId, ImportJobId), Pair(SourceImportFileId, Id)}
    case BookingsChannel => {TENANT, SAME_PROPERTY, Pair(ChannelId, Id)}
    case BaselinesTarget => {TENANT, SAME_PROPERTY, SAME_SOURCE, Pair(TargetSnapshotId, Id), Pair(TargetOrigin, Origin)}
    case ComparablesSnapshot => {TENANT, SAME_PROPERTY, SAME_SOURCE, Pair(SnapshotId, Id), Pair(Origin, Origin)}
    case ComparablesBaseline => {TENANT, SAME_PROPERTY, SAME_SOURCE, Pair(BaselineId, Id)}
    case IdentifiersSupplier => {TENANT, Pair(SupplierId, Id)}
    case AliasesSupplier => {TENANT, Pair(SupplierId, Id)}
    case ReviewsProvisional => {TENANT, Pair(ProvisionalSupplierId, Id)}
    case ReviewsCandidate => {TENANT, Pair(CandidateSupplierId, Id)}
    case InvoicesSupplier => {TENANT, Pair(SupplierId, Id)}
    case LinesInvoice => {TENANT, Pair(InvoiceId, Id)}
    case EntriesLabor => {TENANT, Pair(LaborSnapshotId, Id)}
  }

  /** The column that names the referenced row. */
  function Naming(fk: ForeignKey): (c: Column)
    ensures Pair(c, Id) in Pairs(fk)
  {
    match fk
    case PropertiesWorkspace => WorkspaceId
    case SuppliersWorkspace => WorkspaceId
    case SourcesProperty => PropertyId
    case ChannelsProperty => PropertyId
    case InventoryProperty => PropertyId
    case SnapshotsProperty => PropertyId
    case BaselinesProperty => PropertyId
    case InvoicesProperty => PropertyId
    case LaborProperty => PropertyId
    case JobsSource => DataSourceId
    case BookingProfilesSource => DataSourceId
    case BookingsSource => DataSourceId
    case SnapshotsSource => DataSourceId
    case BaselinesSource => DataSourceId
    case InvoicesSource => DataSourceId
    case InvoiceProfilesSource => DataSourceId
    case LaborSource => DataSourceId
    case LaborProfilesSource => DataSourceId
    case AliasesSource => DataSourceId
    case FilesJob => ImportJobId
    case BookingsFirstJob => FirstImportJobId
    case BookingsLastJob => LastImportJobId
    case InvoicesJob => SourceImportJobId
    case LaborJob => SourceImportJobId
    case BookingRowsFile => ImportFileId
    case InvoiceRowsFile => ImportFileId
    case LaborRowsFile => ImportFileId
    case InvoicesFile => SourceImportFileId
    case LaborFile => SourceImportFileId
    case BookingsChannel => ChannelId
    case BaselinesTarget => TargetSnapshotId
    case ComparablesSnapshot => SnapshotId
    case ComparablesBaseline => BaselineId
    case IdentifiersSupplier => SupplierId
    case AliasesSupplier => SupplierId
    case ReviewsProvisional => ProvisionalSupplierId
    case ReviewsCandidate => CandidateSupplierId
    case InvoicesSupplier => SupplierId
    case LinesInvoice => InvoiceId
    case EntriesLabor => LaborSnapshotId
  }

  // ---------------------------------------------------------------------------------------------
  // Unique keys (those that hold the row's own id are the primary key again)
  // ---------------------------------------------------------------------------------------------

  datatype UniqueKey =
    | WorkspaceSlug | PropertySlug
    | ChannelName | BookingProfileOfSource | BookingOfSource | BookingRowOfFile
    | InventoryOfNight | SnapshotSlot
    | BaselineVersion | ComparableSnapshot | ComparableRank
    | SupplierIdentity | SupplierAlias | ReviewPair
    | InvoiceIdentity | LineOfInvoice | InvoiceProfileOfSource | InvoiceRowOfFile
    | LaborDayOfSource | EntryOfLaborDay | LaborProfileOfSource | LaborRowOfFile

  function KeyTable(k: UniqueKey): Table {
    match k
    case WorkspaceSlug => Workspaces
    case PropertySlug => Properties
    case ChannelName => BookingChannels
    case BookingProfileOfSource => BookingMappingProfiles
    case BookingOfSource => Bookings
    case BookingRowOfFile => BookingImportRows
    case InventoryOfNight => RoomInventoryDaily
    case SnapshotSlot => BookingSnapshots
    case BaselineVersion => Baselines
    case ComparableSnapshot => Comparables
    case ComparableRank => Comparables
    case SupplierIdentity => SupplierIdentifiers
    case SupplierAlias => SupplierAliases
    case ReviewPair => SupplierReviews
    case InvoiceIdentity => Invoices
    case LineOfInvoice => InvoiceLines
    case InvoiceProfileOfSource => InvoiceMappingProfiles
    case InvoiceRowOfFile => InvoiceImportRows
    case LaborDayOfSource => LaborSnapshots
    case EntryOfLaborDay => LaborEntries
    case LaborProfileOfSource => LaborMappingProfiles
    case LaborRowOfFile => LaborImportRows
  }

  function KeyColumns(k: UniqueKey): set<Column> {
    match k
    case WorkspaceSlug => {Slug}
    case PropertySlug => {WorkspaceId, Slug}
    case ChannelName => {WorkspaceId, PropertyId, NormalizedName}
    case BookingProfileOfSource => {WorkspaceId, DataSourceId}
    case BookingOfSource => {WorkspaceId, DataSourceId, SourceRecordId}
    case BookingRowOfFile => {WorkspaceId, ImportFileId, RowNumber}
    case InventoryOfNight => {WorkspaceId, PropertyId, StayDate}
    case SnapshotSlot => {WorkspaceId, DataSourceId, SnapshotLocalDate, StayDate}
    case BaselineVersion => {WorkspaceId, TargetSnapshotId, CalculationVersion}
    case ComparableSnapshot => {WorkspaceId, BaselineId, SnapshotId}
    case ComparableRank => {WorkspaceId, BaselineId, RecencyRank}
    case SupplierIdentity => {WorkspaceId, Kind, NormalizedValue}
    case SupplierAlias => {WorkspaceId, SupplierId, NormalizedName}
    case ReviewPair => {WorkspaceId, ProvisionalSupplierId, CandidateSupplierId}
    case InvoiceIdentity => {WorkspaceId, PropertyId, SupplierId, NormalizedInvoiceNumber, InvoiceDate, DocumentKind}
    case LineOfInvoice => {WorkspaceId, InvoiceId, SourceLineNumber}
    case InvoiceProfileOfSource => {WorkspaceId, DataSourceId}
    case InvoiceRowOfFile => {WorkspaceId, ImportFileId, RowNumber}
    case LaborDayOfSource => {WorkspaceId, DataSourceId, SnapshotLocalDate}
    case EntryOfLaborDay => {WorkspaceId, LaborSnapshotId, SourceRowNumber}
    case LaborProfileOfSource => {WorkspaceId, DataSourceId}
    case LaborRowOfFile => {WorkspaceId, ImportFileId, SourceRowNumber}
  }

  // ---------------------------------------------------------------------------------------------
  // What a row must have, and which rows may change
  // ---------------------------------------------------------------------------------------------

  /** The NOT NULL columns among those the keys speak of. */
  function Required(t: Table): set<Column> {
    match t
    case Workspaces => {Slug}
    case Properties => {WorkspaceId, Slug}
    case DataSources => {WorkspaceId, PropertyId}
    case ImportJobs => {WorkspaceId, PropertyId, DataSourceId}
    case ImportFiles => {WorkspaceId, ImportJobId}
    case BookingChannels => {WorkspaceId, PropertyId, NormalizedName}
    case BookingMappingProfiles => {WorkspaceId, PropertyId, DataSourceId}
    case Bookings => {WorkspaceId, PropertyId, DataSourceId, SourceRecordId, ChannelId, FirstImportJobId, LastImportJobId, CreatedAt}
    case BookingImportRows => {WorkspaceId, ImportJobId, ImportFileId, RowNumber}
    case RoomInventoryDaily => {WorkspaceId, PropertyId, StayDate}
    case BookingSnapshots => {WorkspaceId, PropertyId, DataSourceId, SnapshotLocalDate, StayDate, Origin}
    case Baselines => {WorkspaceId, PropertyId, DataSourceId, TargetSnapshotId, TargetOrigin, CalculationVersion}
    case Comparables => {WorkspaceId, PropertyId, DataSourceId, BaselineId, SnapshotId, Origin, RecencyRank}
    case Suppliers => {WorkspaceId, NormalizedName}
    case SupplierIdentifiers => {WorkspaceId, SupplierId, Kind, NormalizedValue}
    case SupplierAliases => {WorkspaceId, SupplierId, NormalizedName}
    case SupplierReviews => {WorkspaceId, ProvisionalSupplierId, CandidateSupplierId}
    case Invoices => {WorkspaceId, PropertyId, DataSourceId, SupplierId, NormalizedInvoiceNumber, InvoiceDate, DocumentKind,
                      SourceImportJobId, SourceImportFileId}
    case InvoiceLines => {WorkspaceId, InvoiceId, SourceLineNumber}
    case InvoiceMappingProfiles => {WorkspaceId, PropertyId, DataSourceId}
    case InvoiceImportRows => {WorkspaceId, ImportJobId, ImportFileId, RowNumber}
    case LaborSnapshots => {WorkspaceId, PropertyId, DataSourceId, SnapshotLocalDate, SourceImportJobId, SourceImportFileId}
    case LaborEntries => {WorkspaceId, LaborSnapshotId, SourceRowNumber}
    case LaborMappingProfiles => {WorkspaceId, PropertyId, DataSourceId}
    case LaborImportRows => {WorkspaceId, ImportJobId, ImportFileId, SourceRowNumber}
  }

  const OBSERVED := Text("OBSERVED")
  const RECONSTRUCTED := Text("RECONSTRUCTED_APPROXIMATE")

  /** The checks that tie columns of keys to each other. */
  predicate Checked(t: Table, row: Row)
    requires Required(t) <= row.Keys
  {
    match t
    case BookingSnapshots => row[Origin] == OBSERVED || row[Origin] == RECONSTRUCTED
    case Baselines => row[TargetOrigin] == OBSERVED
    case Comparables => row[Origin] == OBSERVED || row[Origin] == RECONSTRUCTED
    case SupplierReviews => row[ProvisionalSupplierId] != row[CandidateSupplierId]
    case _ => true
  }

  /** A BEFORE UPDATE trigger refuses every update of these rows. */
  predicate Immutable(t: Table) {
    || t.BookingSnapshots? || t.Baselines? || t.Comparables?
    || t.Invoices? || t.InvoiceLines? || t.LaborSnapshots? || t.LaborEntries?
  }

  /** The columns of a booking its trigger protects. */
  const BOOKING_IDENTITY := {Id, WorkspaceId, PropertyId, DataSourceId, SourceRecordId, FirstImportJobId, CreatedAt}
}
