/**
 * The product-import job and its per-row log (`ProductImport`,
 * `ProductImportLog`): the status and type vocabularies with their stored
 * codes, the job record with its five counters and settings, and the
 * upload path of an import file.
 */
module ImportModels {
  import opened Wrappers
  import opened Text
  import opened Uploads

  /** Job status; `Code` is the value stored in the database. */
  datatype JobStatus = Pending | Processing | Completed | Partial | Error {
    function Code(): string {
      match this
      case Pending => "pending"
      case Processing => "processing"
      case Completed => "completed"
      case Partial => "partial"
      case Error => "error"
    }
  }

  /** The stored code read back as a status; `None` for a code outside the choices. */
  function JobStatusOf(code: string): (s: Option<JobStatus>)
    ensures s.Some? ==> s.value.Code() == code
  {
    if code == "pending" then Some(Pending)
    else if code == "processing" then Some(Processing)
    else if code == "completed" then Some(Completed)
    else if code == "partial" then Some(Partial)
    else if code == "error" then Some(Error)
    else None
  }

  lemma JobStatusCodes(s: JobStatus)
    ensures JobStatusOf(s.Code()) == Some(s)
  {
  }

  /** What an import may do with a row: create products, update them, or both. */
  datatype ImportType = Create | Update | CreateUpdate {
    function Code(): string {
      match this
      case Create => "create"
      case Update => "update"
      case CreateUpdate => "create_update"
    }
  }

  function ImportTypeOf(code: string): (t: Option<ImportType>)
    ensures t.Some? ==> t.value.Code() == code
  {
    if code == "create" then Some(Create)
    else if code == "update" then Some(Update)
    else if code == "create_update" then Some(CreateUpdate)
    else None
  }

  lemma ImportTypeCodes(t: ImportType)
    ensures ImportTypeOf(t.Code()) == Some(t)
  {
  }

  /** Status of one row's log entry; `Failed` is stored as "error". */
  datatype LogStatus = Success | Created | Updated | Failed | Skipped {
    function Code(): string {
      match this
      case Success => "success"
      case Created => "created"
      case Updated => "updated"
      case Failed => "error"
      case Skipped => "skipped"
    }
  }

  function LogStatusOf(code: string): (s: Option<LogStatus>)
    ensures s.Some? ==> s.value.Code() == code
  {
    if code == "success" then Some(Success)
    else if code == "created" then Some(Created)
    else if code == "updated" then Some(Updated)
    else if code == "error" then Some(Failed)
    else if code == "skipped" then Some(Skipped)
    else None
  }

  lemma LogStatusCodes(s: LogStatus)
    ensures LogStatusOf(s.Code()) == Some(s)
  {
  }

  /**
   * An import job. The counters are the source's non-negative integer
   * columns. `defaultCategory` names a category by slug; `processedAt` is
   * the moment processing finished, as given by the clock.
   */
  datatype ImportJob = ImportJob(
    name: string,
    importType: ImportType,
    status: JobStatus,
    totalRows: nat,
    createdCount: nat,
    updatedCount: nat,
    errorCount: nat,
    skippedCount: nat,
    errorMessage: string,
    skipExisting: bool,
    updateImages: bool,
    defaultCategory: Option<string>,
    processedAt: Option<int>)

  /**
   * A job as created from the admin form: the import type falls back to
   * create-and-update, the status starts pending, every counter at zero,
   * and both flags are off unless given.
   */
  function NewJob(name: string, importType: Option<ImportType>, skipExisting: Option<bool>,
                  updateImages: Option<bool>, defaultCategory: Option<string>): (j: ImportJob)
    ensures j.status == Pending && j.processedAt == None && j.errorMessage == ""
    ensures j.totalRows == 0 && j.createdCount == 0 && j.updatedCount == 0 && j.errorCount == 0 && j.skippedCount == 0
    ensures importType.None? ==> j.importType == CreateUpdate
    ensures importType.Some? ==> j.importType == importType.value
    ensures j.skipExisting == (skipExisting == Some(true)) && j.updateImages == (updateImages == Some(true))
  {
    ImportJob(name, importType.GetOr(CreateUpdate), Pending, 0, 0, 0, 0, 0, "",
              skipExisting.GetOr(false), updateImages.GetOr(false), defaultCategory, None)
  }

  /** The message of a log entry: a text, or the text of a raised exception after a fixed prefix. */
  datatype LogMessage = Text(text: string) | Raised(prefix: string, cause: Cause)

  /**
   * Why a database operation raised: a uniqueness or range constraint of the
   * schema (duplicate SKU, slug or category name, negative stock), or a
   * fault of the database itself with its text.
   */
  datatype Cause = Integrity | Fault(text: string)

  datatype ImportLog = ImportLog(
    rowNumber: nat,
    sku: string,
    productName: string,
    status: LogStatus,
    message: LogMessage,
    rawData: map<string, string>)

  /** Log entries listed by row number, as the log's default ordering does. */
  predicate OrderedByRow(logs: seq<ImportLog>) {
    forall i, j :: 0 <= i < j < |logs| ==> logs[i].rowNumber <= logs[j].rowNumber
  }

  /**
   * `import_file_path`: `imports/<YYYY>/<MM>/import_<8 hex>.<ext>`, dated by
   * the job's creation time when it has one and by the clock otherwise.
   * `hex` stands for the random `uuid4().hex`.
   */
  function ImportFilePath(filename: string, hex: string, createdAt: Option<Date>, now: Date): (path: string)
    requires ValidDate(now) && (createdAt.Some? ==> ValidDate(createdAt.value))
    requires |hex| == 32 && forall i :: 0 <= i < |hex| ==> IsHex(hex[i])
    ensures var d := createdAt.GetOr(now);
      '/' !in filename ==>
        Split(path, '/') == ["imports", NatToString(d.year), ZeroPad(d.month, 2), "import_" + hex[..8] + "." + UploadExtension(filename)]
    ensures LastField(path, '.') == UploadExtension(filename)
  {
    var stem := "import_" + hex[..8];
    var h := hex[..8];
    assert forall i :: 0 <= i < |h| ==> IsHex(h[i]);
    assert '/' !in h && '.' !in h;
    assert '/' !in stem && '.' !in stem;
    DatedPath("imports", createdAt.GetOr(now), stem, filename)
  }
}
