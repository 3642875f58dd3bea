/**
 * Rows of a source file, the database records built from them, and the
 * row-level rules of `process_radiocarbon_row` (ingest.py:501-649) that need
 * no database: coordinate nulling, the rejection rule, the quality-issue list
 * and the method-family gating of the age columns.
 */
module Records {
  import opened Wrappers
  import opened Text
  import opened Numbers
  import opened Fields
  import opened Classify
  import opened Settings

  /** The columns of the AustArch export that the loader reads, named by their headers. */
  datatype Column =
    | LAB_CODE | SITE | SITE_TYPE | LATITUDE | LONGITUDE | IBRA_REGION
    | MATERIAL | MATERIAL_TOP_LEVEL | DEPTH_FROM_SURFACE_CM | CONTEXT
    | AGE | ERROR | METHOD | TECHNIQUE | C13_AGE | SOURCE
    | DATE_ISSUES | ADDITIONAL_DATA_ISSUES | NOTES

  /** One record of `csv.DictReader`: column to cell text. Columns the loader never reads are dropped. */
  type Row = map<Column, string>

  /**
   * `row.get(column) or ''`. A missing column and an empty cell are treated
   * alike everywhere in ingest.py, so both read as the empty text.
   */
  function Field(row: Row, column: Column): string {
    if column in row then row[column] else ""
  }

  /** The identifier of an import batch (a random UUID in ingest.py). */
  type BatchId = nat

  /** A row of the `site` table (ingest.py:554-558). */
  datatype Site = Site(
    name: string,
    latitude: Option<real>,
    longitude: Option<real>,
    state: Option<StateCode>,
    siteType: string,
    region: string,
    batch: BatchId)

  /** A row of the `sample` table (ingest.py:573-580). */
  datatype Sample = Sample(
    siteId: nat,
    materialId: Option<int>,
    materialDescription: string,
    depthTop: Option<real>,
    culturalAssociation: string)

  /** A row of the `age_determination` table (ingest.py:628-648). */
  datatype AgeDetermination = AgeDetermination(
    sampleId: nat,
    labCode: string,
    methodId: Option<int>,
    c14Age: Option<int>,
    c14Error: Option<int>,
    deltaC13: Option<real>,
    lumAgeKa: Option<real>,
    lumErrorKa: Option<real>,
    ageBp: Option<int>,
    ageError: Option<int>,
    isRejected: bool,
    rejectionReason: Option<string>,
    qualityIssues: Option<seq<string>>,
    dataSourceId: Option<nat>,
    notes: string,
    batch: BatchId)

  /**
   * A row of the `data_source` table (ingest.py:461-466). Its author and year
   * columns are what `parse_citation` reads from the citation on insert, so
   * they are functions of the citation here.
   */
  datatype DataSource = DataSource(citation: string)
  {
    function Author(): Option<string> {
      ParseCitation(citation).author
    }

    function Year(): Option<int> {
      ParseCitation(citation).year
    }
  }

  /** An entry of `IngestStats.errors`. */
  datatype IngestError = InvalidCoordinates(lat: real, lon: real)

  // ---------------------------------------------------------------------------
  // Coordinates
  // ---------------------------------------------------------------------------

  /** The coordinates a row carries into the site lookup, and the errors the check appends (ingest.py:511-519). */
  datatype CheckedCoordinates = CheckedCoordinates(lat: Option<real>, lon: Option<real>, errors: seq<IngestError>)

  function CheckCoordinates(lat: Option<real>, lon: Option<real>, config: Config): (r: CheckedCoordinates)
    ensures |r.errors| <= 1
  {
    if lat.Some? && lon.Some? && config.validateCoordinates && !ValidateCoordinates(lat.value, lon.value, config) then
      CheckedCoordinates(None, None, [InvalidCoordinates(lat.value, lon.value)])
    else
      CheckedCoordinates(lat, lon, [])
  }

  /** `parse_float` of the two coordinate columns, then the check. */
  function RowCoordinates(row: Row, config: Config): CheckedCoordinates {
    CheckCoordinates(ParseFloat(Field(row, LATITUDE)), ParseFloat(Field(row, LONGITUDE)), config)
  }

  /**
   * Both coordinates given, validation on and the check failing: exactly one
   * error, and both coordinates are dropped. In every other case the
   * coordinates pass through unchanged and no error is recorded.
   */
  lemma CheckCoordinatesNulling(lat: Option<real>, lon: Option<real>, config: Config)
    ensures var failed := lat.Some? && lon.Some? && config.validateCoordinates && !ValidateCoordinates(lat.value, lon.value, config);
      var c := CheckCoordinates(lat, lon, config);
      (failed ==> c == CheckedCoordinates(None, None, [InvalidCoordinates(lat.value, lon.value)]))
      && (!failed ==> c.lat == lat && c.lon == lon && c.errors == [])
  {
  }

  /** With validation on, coordinates that survive the check lie within the bounds. */
  lemma CheckedCoordinatesInBounds(lat: Option<real>, lon: Option<real>, config: Config)
    requires config.validateCoordinates
    requires CheckCoordinates(lat, lon, config).lat.Some? && CheckCoordinates(lat, lon, config).lon.Some?
    ensures ValidateCoordinates(CheckCoordinates(lat, lon, config).lat.value, CheckCoordinates(lat, lon, config).lon.value, config)
  {
  }

  // ---------------------------------------------------------------------------
  // Rejection and quality issues
  // ---------------------------------------------------------------------------

  /** A text is blank when it holds nothing but whitespace (`not s.strip()`). */
  predicate IsBlank(s: string) {
    Strip(s) == []
  }

  /** `bool(date_issues.strip()) or 'reject' in notes.lower()` */
  predicate IsRejected(dateIssues: string, notes: string) {
    !IsBlank(dateIssues) || Contains(Lower(notes), "reject")
  }

  /** `rejection_reason = date_issues if is_rejected else None` */
  function RejectionReason(dateIssues: string, notes: string): (r: Option<string>)
    ensures r.Some? <==> IsRejected(dateIssues, notes)
    ensures r.Some? ==> r.value == dateIssues
  {
    if IsRejected(dateIssues, notes) then Some(dateIssues) else None
  }

  /** The quality-issue list: the stripped date issues and the stripped additional issues, each only when given. */
  function QualityIssues(dateIssues: string, additionalIssues: string): (r: seq<string>)
    ensures |r| <= 2
  {
    var d := Strip(dateIssues);
    var a := Strip(additionalIssues);
    (if d != [] then [d] else []) + (if a != [] then [a] else [])
  }

  /** One entry per given text, in order, each non-empty and already stripped. */
  lemma QualityIssuesShape(dateIssues: string, additionalIssues: string)
    ensures var r := QualityIssues(dateIssues, additionalIssues);
      |r| == (if IsBlank(dateIssues) then 0 else 1) + (if IsBlank(additionalIssues) then 0 else 1)
      && (forall i :: 0 <= i < |r| ==> r[i] != [] && Strip(r[i]) == r[i])
      && (!IsBlank(dateIssues) ==> r[0] == Strip(dateIssues))
      && (!IsBlank(additionalIssues) ==> r[|r| - 1] == Strip(additionalIssues))
  {
    StripIdempotent(dateIssues);
    StripIdempotent(additionalIssues);
  }

  /** `quality_issues if quality_issues else None`: an empty list is stored as NULL. */
  function StoredIssues(issues: seq<string>): (r: Option<seq<string>>)
    ensures r.None? <==> issues == []
    ensures r.Some? ==> r.value == issues
  {
    if issues == [] then None else Some(issues)
  }

  /** Stripping twice is stripping once. */
  lemma StripIdempotent(s: string)
    ensures Strip(Strip(s)) == Strip(s)
  {
    StripUnchanged(Strip(s));
  }

  /**
   * A row rejected because of its date issues carries them, stripped, as its
   * first quality issue; a row rejected only by its notes may carry none.
   */
  lemma RejectionAndIssues(dateIssues: string, additionalIssues: string, notes: string)
    ensures !IsBlank(dateIssues) ==> IsRejected(dateIssues, notes) && QualityIssues(dateIssues, additionalIssues)[0] == Strip(dateIssues)
    ensures IsBlank(dateIssues) && IsBlank(additionalIssues) ==> StoredIssues(QualityIssues(dateIssues, additionalIssues)).None?
  {
    QualityIssuesShape(dateIssues, additionalIssues);
  }

  // ---------------------------------------------------------------------------
  // Method-family gating of the age columns
  // ---------------------------------------------------------------------------

  /** The `c14_age` / `c14_error` columns: the parsed value for the radiocarbon family only. */
  function RadiocarbonColumn(value: Option<int>, m: MethodCode): (r: Option<int>)
    ensures r.Some? <==> m.IsRadiocarbon() && value.Some?
    ensures r.Some? ==> r == value
  {
    if m.IsRadiocarbon() then value else None
  }

  /**
   * The `lum_age_ka` / `lum_error_ka` columns: years converted to thousands of
   * years for the luminescence family, and only for a non-zero value
   * (`if c14_age:` treats 0 as absent).
   */
  function LuminescenceColumn(value: Option<int>, m: MethodCode): (r: Option<real>)
    ensures r.Some? <==> m.IsLuminescence() && value.Some? && value.value != 0
  {
    if m.IsLuminescence() && value.Some? && value.value != 0 then Some(value.value as real / 1000.0) else None
  }

  /** At most one family of age columns is filled, and the ka value is the age divided by one thousand. */
  lemma AgeColumnsExclusive(value: Option<int>, m: MethodCode)
    ensures !(RadiocarbonColumn(value, m).Some? && LuminescenceColumn(value, m).Some?)
    ensures LuminescenceColumn(value, m).Some? ==> LuminescenceColumn(value, m).value * 1000.0 == value.value as real
    ensures m == Cosmo || m == UTh || m == Esr || m == Aar ==> RadiocarbonColumn(value, m).None? && LuminescenceColumn(value, m).None?
  {
  }
}
