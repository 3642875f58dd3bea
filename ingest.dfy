/**
 * The ingestion itself: site matching (`find_existing_site`,
 * ingest.py:377-420), one row (`process_radiocarbon_row`, ingest.py:501-649),
 * one file (`ingest_csv_file`, ingest.py:652-692) and a whole run
 * (`run_ingestion`, ingest.py:695-799).
 *
 * Each step is specified by a pure function on a `State` (the tables, the
 * citation cache and the counters); the methods change the objects and are
 * proved to agree with those functions.
 */
module Ingest {
  import opened Wrappers
  import opened Text
  import opened Numbers
  import opened Fields
  import opened Classify
  import opened Settings
  import opened Records
  import opened Store

  /** What a row step reads and changes: the tables, the citation cache, the counters. */
  datatype State = State(tables: Tables, sources: map<string, nat>, counts: Counts)

  /** The code-to-id lookups loaded into the cache when it is created; no row changes them. */
  datatype Refs = Refs(methods: map<string, int>, materials: map<string, int>)

  // ---------------------------------------------------------------------------
  // Site matching
  // ---------------------------------------------------------------------------

  /** The first site at index `k` or later whose name key is `key`. */
  function FindSiteFrom(sites: seq<Site>, key: string, k: nat): (r: Option<nat>)
    requires k <= |sites|
    ensures r.Some? ==> k <= r.value < |sites|
    decreases |sites| - k
  {
    if k == |sites| then None
    else if SiteNameKey(sites[k].name) == key then Some(k)
    else FindSiteFrom(sites, key, k + 1)
  }

  /**
   * The index of the site the name query returns: names compared with spaces
   * removed and case ignored; of several matches the earliest row is taken.
   */
  function FindSiteIndex(sites: seq<Site>, name: string): (r: Option<nat>)
    ensures r.Some? ==> r.value < |sites|
  {
    FindSiteFrom(sites, SiteNameKey(name), 0)
  }

  /** `FindSiteFrom` finds the first site from `k` on with the key, and fails only when there is none. */
  lemma {:induction false} FindSiteFromSpec(sites: seq<Site>, key: string, k: nat)
    requires k <= |sites|
    ensures var r := FindSiteFrom(sites, key, k);
      (r.Some? ==> SiteNameKey(sites[r.value].name) == key
                   && forall j :: k <= j < r.value ==> SiteNameKey(sites[j].name) != key)
      && (r.None? <==> forall j :: k <= j < |sites| ==> SiteNameKey(sites[j].name) != key)
    decreases |sites| - k
  {
    if k < |sites| && SiteNameKey(sites[k].name) != key {
      FindSiteFromSpec(sites, key, k + 1);
    }
  }

  /** The site found has the same name key as `name`, no earlier site has, and none found means no site has. */
  lemma FindSiteIndexSpec(sites: seq<Site>, name: string)
    ensures var r := FindSiteIndex(sites, name);
      (r.Some? ==> SiteNameKey(sites[r.value].name) == SiteNameKey(name)
                   && forall j :: 0 <= j < r.value ==> SiteNameKey(sites[j].name) != SiteNameKey(name))
      && (r.None? <==> forall j :: 0 <= j < |sites| ==> SiteNameKey(sites[j].name) != SiteNameKey(name))
  {
    FindSiteFromSpec(sites, SiteNameKey(name), 0);
  }

  /** The site table after the lookup, and the id found. */
  datatype SiteMatch = SiteMatch(sites: seq<Site>, id: Option<nat>)

  /** Whether a matched site gets the row's coordinates: it lacks one, and the row has both. */
  predicate BackFills(site: Site, lat: Option<real>, lon: Option<real>) {
    (site.latitude.None? || site.longitude.None?) && lat.Some? && lon.Some?
  }

  /** `find_existing_site` without its spatial fallback. */
  function MatchSite(sites: seq<Site>, name: string, lat: Option<real>, lon: Option<real>): (r: SiteMatch)
    ensures |r.sites| == |sites|
    ensures r.id.Some? <==> FindSiteIndex(sites, name).Some?
  {
    match FindSiteIndex(sites, name)
    case None => SiteMatch(sites, None)
    case Some(k) =>
      var site := sites[k];
      if BackFills(site, lat, lon) then
        SiteMatch(sites[k := site.(latitude := lat, longitude := lon)], Some(k + 1))
      else
        SiteMatch(sites, Some(k + 1))
  }

  /**
   * A match returns the id of the earliest site with the same name key. Only
   * that site can change, only its coordinates change, and they change
   * exactly when it lacked one and the row has both; no match changes nothing.
   */
  lemma MatchSiteSpec(sites: seq<Site>, name: string, lat: Option<real>, lon: Option<real>)
    ensures var r := MatchSite(sites, name, lat, lon);
      r.id.None? ==> r.sites == sites
    ensures var r := MatchSite(sites, name, lat, lon);
      r.id.Some? ==>
        (1 <= r.id.value <= |sites|
         && SiteNameKey(sites[r.id.value - 1].name) == SiteNameKey(name)
         && (forall j :: 0 <= j < r.id.value - 1 ==> SiteNameKey(sites[j].name) != SiteNameKey(name))
         && (forall j :: 0 <= j < |sites| && j != r.id.value - 1 ==> r.sites[j] == sites[j])
         && var old_ := sites[r.id.value - 1];
            var new_ := r.sites[r.id.value - 1];
            new_ == (if BackFills(old_, lat, lon) then old_.(latitude := lat, longitude := lon) else old_))
  {
    FindSiteIndexSpec(sites, name);
  }

  /** Site names, and so the name lookup, are never changed by a match. */
  lemma MatchSiteNames(sites: seq<Site>, name: string, lat: Option<real>, lon: Option<real>)
    ensures var r := MatchSite(sites, name, lat, lon);
      forall j :: 0 <= j < |sites| ==> r.sites[j].name == sites[j].name
  {
  }

  /** `find_existing_site`, name half, including the coordinate back-fill. */
  method FindExistingSite(db: Database, name: string, lat: Option<real>, lon: Option<real>) returns (r: Option<nat>)
    modifies db`sites
    ensures SiteMatch(db.sites, r) == MatchSite(old(db.sites), name, lat, lon)
  {
    var found := FindSiteIndex(db.sites, name);
    if found.None? {
      return None;
    }
    var k := found.value;
    var site := db.sites[k];
    if BackFills(site, lat, lon) {
      db.sites := db.sites[k := site.(latitude := lat, longitude := lon)];
    }
    return Some(k + 1);
  }

  // ---------------------------------------------------------------------------
  // One row
  // ---------------------------------------------------------------------------

  const UnknownSite: string := "Unknown Site"

  /** The site name of a row: `SITE`, or "Unknown Site" when empty, stripped. */
  function SiteNameOf(row: Row): string {
    Strip(if Field(row, SITE) == [] then UnknownSite else Field(row, SITE))
  }

  /**
   * Everything `process_radiocarbon_row` takes from its row, parsed and
   * classified: the coordinates after the check, the lab code, the site, the
   * sample and the age columns. Reading has no side effects, so computing it
   * all before the first write does not change what the function does. The
   * age columns are only used when the lab code is present.
   */
  datatype RowValues = RowValues(
    coords: CheckedCoordinates,
    labCode: Option<string>,
    siteName: string,
    siteType: string,
    region: string,
    state: Option<StateCode>,
    materialDescription: string,
    materialCode: string,
    depthTop: Option<real>,
    context: string,
    methodCode: string,
    c14Age: Option<int>,
    c14Error: Option<int>,
    deltaC13: Option<real>,
    lumAgeKa: Option<real>,
    lumErrorKa: Option<real>,
    ageBp: Option<int>,
    ageError: Option<int>,
    citation: string,
    isRejected: bool,
    rejectionReason: Option<string>,
    qualityIssues: Option<seq<string>>,
    notes: string)

  /** The values read from a row (ingest.py:511-519, 523, 541-545, 564-571, 585-626). */
  function ReadRow(row: Row, config: Config): RowValues {
    var labCode := ParseLabCode(Field(row, LAB_CODE));
    var region := Field(row, IBRA_REGION);
    var description := Field(row, MATERIAL);
    var age := ParseInt(Field(row, AGE));
    var error := ParseInt(Field(row, ERROR));
    var m := DetermineMethod(Field(row, METHOD), Field(row, TECHNIQUE), labCode.GetOr([]));
    var dateIssues := Field(row, DATE_ISSUES);
    var notes := Field(row, NOTES);
    RowValues(
      RowCoordinates(row, config),
      labCode,
      SiteNameOf(row),
      Field(row, SITE_TYPE),
      region,
      DeriveStateFromIbra(region),
      description,
      NormalizeMaterial(if description != [] then description else Field(row, MATERIAL_TOP_LEVEL)).Code(),
      ParseDepth(Field(row, DEPTH_FROM_SURFACE_CM)),
      Field(row, CONTEXT),
      m.Code(),
      RadiocarbonColumn(age, m),
      RadiocarbonColumn(error, m),
      ParseFloat(Field(row, C13_AGE)),
      LuminescenceColumn(age, m),
      LuminescenceColumn(error, m),
      age,
      error,
      Field(row, SOURCE),
      IsRejected(dateIssues, notes),
      RejectionReason(dateIssues, notes),
      StoredIssues(QualityIssues(dateIssues, Field(row, ADDITIONAL_DATA_ISSUES))),
      notes)
  }

  /** The `site` row inserted when no site matches. */
  function NewSite(v: RowValues, batch: BatchId): Site {
    Site(v.siteName, v.coords.lat, v.coords.lon, v.state, v.siteType, v.region, batch)
  }

  /** The `sample` row of an accepted row. */
  function SampleOf(v: RowValues, siteId: nat, materials: map<string, int>): Sample {
    Sample(siteId, LookupId(materials, v.materialCode), v.materialDescription, v.depthTop, v.context)
  }

  /** The `age_determination` row of an accepted row. */
  function AgeOf(v: RowValues, sampleId: nat, labCode: string, methods: map<string, int>,
                 sourceId: Option<nat>, batch: BatchId): AgeDetermination
  {
    AgeDetermination(sampleId, labCode, LookupId(methods, v.methodCode),
      v.c14Age, v.c14Error, v.deltaC13, v.lumAgeKa, v.lumErrorKa, v.ageBp, v.ageError,
      v.isRejected, v.rejectionReason, v.qualityIssues, sourceId, v.notes, batch)
  }

  /** Some age row already carries this lab code. */
  predicate HasLabCode(ages: seq<AgeDetermination>, labCode: string) {
    exists i :: 0 <= i < |ages| && ages[i].labCode == labCode
  }

  /** A row is skipped when it has no usable lab code, or its lab code is known and existing ones are skipped. */
  predicate Skipped(v: RowValues, config: Config, ages: seq<AgeDetermination>) {
    v.labCode.None? || (config.skipExisting && HasLabCode(ages, v.labCode.value))
  }

  /** The counters after the coordinate check, before anything else. */
  function Checked(coords: CheckedCoordinates, s: State): State {
    s.(counts := s.counts.(errors := s.counts.errors + coords.errors))
  }

  /** The site half of an accepted row: the site table and counters after it, and the site id used. */
  datatype SiteOutcome = SiteOutcome(sites: seq<Site>, counts: Counts, siteId: nat)

  /** Match a site by name, or insert one (ingest.py:548-560). */
  function SiteStep(v: RowValues, batch: BatchId, sites: seq<Site>, counts: Counts): SiteOutcome {
    var m := MatchSite(sites, v.siteName, v.coords.lat, v.coords.lon);
    if m.id.Some? then
      SiteOutcome(m.sites, counts.(sitesMatched := counts.sitesMatched + 1), m.id.value)
    else
      var sites := m.sites + [NewSite(v, batch)];
      SiteOutcome(sites, counts.(sitesCreated := counts.sitesCreated + 1), |sites|)
  }

  /** The sample of an accepted row appended. */
  function Sampled(v: RowValues, refs: Refs, siteId: nat, s: State): State {
    s.(tables := s.tables.(samples := s.tables.samples + [SampleOf(v, siteId, refs.materials)]),
       counts := s.counts.(samplesCreated := s.counts.samplesCreated + 1))
  }

  /** The data source looked up or created. */
  function Sourced(source: SourceResult, s: State): State {
    s.(tables := s.tables.(dataSources := source.rows), sources := source.sources)
  }

  /** The age of an accepted row appended; its sample is the last one. */
  function Aged(v: RowValues, refs: Refs, batch: BatchId, labCode: string, sourceId: Option<nat>, s: State): State {
    s.(tables := s.tables.(ages := s.tables.ages + [AgeOf(v, |s.tables.samples|, labCode, refs.methods, sourceId, batch)]),
       counts := s.counts.(agesCreated := s.counts.agesCreated + 1))
  }

  /** The records half of an accepted row: one sample, the data source, one age. */
  function RecordStep(v: RowValues, refs: Refs, batch: BatchId, labCode: string, siteId: nat, s: State): State {
    var s2 := Sampled(v, refs, siteId, s);
    var source := SourceStep(s2.sources, s2.tables.dataSources, v.citation);
    Aged(v, refs, batch, labCode, source.id, Sourced(source, s2))
  }

  /** `process_radiocarbon_row` on the values read from the row. */
  function StoreStep(v: RowValues, config: Config, refs: Refs, batch: BatchId, s: State): State {
    var c := Checked(v.coords, s);
    if Skipped(v, config, s.tables.ages) then
      c.(counts := c.counts.(agesSkipped := c.counts.agesSkipped + 1))
    else
      var site := SiteStep(v, batch, c.tables.sites, c.counts);
      RecordStep(v, refs, batch, v.labCode.value, site.siteId,
        c.(tables := c.tables.(sites := site.sites), counts := site.counts))
  }

  /** `process_radiocarbon_row` */
  function RowStep(row: Row, config: Config, refs: Refs, batch: BatchId, s: State): State {
    StoreStep(ReadRow(row, config), config, refs, batch, s)
  }

  /** The state a cache and a counter object hold. */
  function Current(cache: ReferenceDataCache, stats: IngestStats): State
    reads cache, cache.db, stats
  {
    State(cache.db.Snapshot(), cache.sources, stats.Snapshot())
  }

  /** The site half of `process_radiocarbon_row` (ingest.py:548-560). */
  method StoreSite(v: RowValues, db: Database, batch: BatchId, stats: IngestStats) returns (siteId: nat)
    modifies db`sites, stats`sitesMatched, stats`sitesCreated
    ensures SiteOutcome(db.sites, stats.Snapshot(), siteId) == SiteStep(v, batch, old(db.sites), old(stats.Snapshot()))
  {
    var found := FindExistingSite(db, v.siteName, v.coords.lat, v.coords.lon);
    if found.Some? {
      stats.sitesMatched := stats.sitesMatched + 1;
      siteId := found.value;
    } else {
      db.sites := db.sites + [NewSite(v, batch)];
      siteId := |db.sites|;
      stats.sitesCreated := stats.sitesCreated + 1;
    }
  }

  /** The records half of `process_radiocarbon_row`: sample, data source, age (ingest.py:562-649). */
  method StoreRecords(v: RowValues, cache: ReferenceDataCache, labCode: string, siteId: nat, batch: BatchId, stats: IngestStats)
    requires cache.Valid()
    modifies cache`sources, cache.db`samples, cache.db`ages, cache.db`dataSources
    modifies stats`samplesCreated, stats`agesCreated
    ensures cache.Valid()
    ensures Current(cache, stats) == RecordStep(v, Refs(cache.methods, cache.materials), batch, labCode, siteId, old(Current(cache, stats)))
  {
    var db := cache.db;
    ghost var refs := Refs(cache.methods, cache.materials);
    ghost var s0 := Current(cache, stats);
    db.samples := db.samples + [SampleOf(v, siteId, cache.materials)];
    var sampleId := |db.samples|;
    stats.samplesCreated := stats.samplesCreated + 1;
    ghost var s1 := Sampled(v, refs, siteId, s0);
    assert db.samples == s1.tables.samples && stats.Snapshot() == s1.counts;
    assert Current(cache, stats) == s1;

    var sourceId: Option<nat> := None;
    if v.citation != [] {
      sourceId := cache.GetOrCreateSource(v.citation);
    }
    ghost var source := SourceStep(s1.sources, s1.tables.dataSources, v.citation);
    assert cache.sources == source.sources && db.dataSources == source.rows && sourceId == source.id;
    assert db.samples == s1.tables.samples && db.ages == s1.tables.ages && db.sites == s1.tables.sites;
    assert stats.Snapshot() == s1.counts;
    assert Current(cache, stats) == Sourced(source, s1);

    db.ages := db.ages + [AgeOf(v, sampleId, labCode, cache.methods, sourceId, batch)];
    stats.agesCreated := stats.agesCreated + 1;
    assert Current(cache, stats) == Aged(v, refs, batch, labCode, source.id, Sourced(source, s1));
  }

  /** `process_radiocarbon_row` once the row has been read (ingest.py:511-649). */
  method StoreRow(v: RowValues, cache: ReferenceDataCache, config: Config, batch: BatchId, stats: IngestStats)
    requires cache.Valid()
    modifies cache`sources, cache.db`sites, cache.db`samples, cache.db`ages, cache.db`dataSources, stats
    ensures cache.Valid()
    ensures Current(cache, stats) == StoreStep(v, config, Refs(cache.methods, cache.materials), batch, old(Current(cache, stats)))
  {
    stats.errors := stats.errors + v.coords.errors;
    if v.labCode.None? {
      stats.agesSkipped := stats.agesSkipped + 1;
      return;
    }
    var labCode := v.labCode.value;
    if config.skipExisting && HasLabCode(cache.db.ages, labCode) {
      stats.agesSkipped := stats.agesSkipped + 1;
      return;
    }
    var siteId := StoreSite(v, cache.db, batch, stats);
    StoreRecords(v, cache, labCode, siteId, batch, stats);
  }

  /** `process_radiocarbon_row` */
  method ProcessRadiocarbonRow(row: Row, cache: ReferenceDataCache, config: Config, batch: BatchId, stats: IngestStats)
    requires cache.Valid()
    modifies cache`sources, cache.db`sites, cache.db`samples, cache.db`ages, cache.db`dataSources, stats
    ensures cache.Valid()
    ensures Current(cache, stats) == RowStep(row, config, Refs(cache.methods, cache.materials), batch, old(Current(cache, stats)))
  {
    var v := ReadRow(row, config);
    StoreRow(v, cache, config, batch, stats);
  }

  // ---------------------------------------------------------------------------
  // What one row does
  // ---------------------------------------------------------------------------

  /** The lab code of a row, `parse_lab_code(row.get('LAB_CODE'))`. */
  function LabCodeOf(row: Row): Option<string> {
    ParseLabCode(Field(row, LAB_CODE))
  }

  lemma ReadRowLabCode(row: Row, config: Config)
    ensures ReadRow(row, config).labCode == LabCodeOf(row)
    ensures ReadRow(row, config).coords == RowCoordinates(row, config)
  {
  }

  /**
   * A skipped row leaves every table and the citation cache alone; it only
   * records the coordinate error, if any, and counts one skipped age.
   */
  lemma StoreStepSkipped(v: RowValues, config: Config, refs: Refs, batch: BatchId, s: State)
    requires Skipped(v, config, s.tables.ages)
    ensures var r := StoreStep(v, config, refs, batch, s);
      r.tables == s.tables && r.sources == s.sources
      && r.counts == s.counts.(errors := s.counts.errors + v.coords.errors, agesSkipped := s.counts.agesSkipped + 1)
  {
  }

  /**
   * Any other row appends exactly one sample and one age, and counts exactly
   * one of a created or a matched site; a site row is appended exactly when
   * one is counted as created. The age carries the row's lab code and points
   * at the new sample, which points at a site with the row's name key.
   */
  lemma StoreStepAccepted(v: RowValues, config: Config, refs: Refs, batch: BatchId, s: State)
    requires !Skipped(v, config, s.tables.ages)
    ensures var r := StoreStep(v, config, refs, batch, s);
      var t, u := s.tables, r.tables;
      |u.samples| == |t.samples| + 1 && u.samples[..|t.samples|] == t.samples
      && |u.ages| == |t.ages| + 1 && u.ages[..|t.ages|] == t.ages
      && r.counts.samplesCreated == s.counts.samplesCreated + 1
      && r.counts.agesCreated == s.counts.agesCreated + 1
      && r.counts.agesSkipped == s.counts.agesSkipped
      && r.counts.errors == s.counts.errors + v.coords.errors
      && ((r.counts.sitesCreated == s.counts.sitesCreated + 1 && r.counts.sitesMatched == s.counts.sitesMatched
           && |u.sites| == |t.sites| + 1 && u.sites[..|t.sites|] == t.sites)
          || (r.counts.sitesMatched == s.counts.sitesMatched + 1 && r.counts.sitesCreated == s.counts.sitesCreated
              && |u.sites| == |t.sites|))
      && u.ages[|t.ages|].labCode == v.labCode.value
      && u.ages[|t.ages|].sampleId == |u.samples|
      && 1 <= u.samples[|t.samples|].siteId <= |u.sites|
      && SiteNameKey(u.sites[u.samples[|t.samples|].siteId - 1].name) == SiteNameKey(v.siteName)
  {
    var r := StoreStep(v, config, refs, batch, s);
    var m := MatchSite(s.tables.sites, v.siteName, v.coords.lat, v.coords.lon);
    MatchSiteSpec(s.tables.sites, v.siteName, v.coords.lat, v.coords.lon);
    MatchSiteNames(s.tables.sites, v.siteName, v.coords.lat, v.coords.lon);
    if m.id.None? {
      assert r.tables.sites == s.tables.sites + [NewSite(v, batch)];
    }
  }

  /** The age an accepted row appends: its values, the new sample and the data source of its citation. */
  lemma StoreStepAge(v: RowValues, config: Config, refs: Refs, batch: BatchId, s: State)
    requires !Skipped(v, config, s.tables.ages)
    ensures var r := StoreStep(v, config, refs, batch, s);
      |r.tables.ages| == |s.tables.ages| + 1
      && r.tables.ages[|s.tables.ages|]
         == AgeOf(v, |r.tables.samples|, v.labCode.value, refs.methods,
                  SourceStep(s.sources, s.tables.dataSources, v.citation).id, batch)
      && r.tables.dataSources == SourceStep(s.sources, s.tables.dataSources, v.citation).rows
  {
  }

  /** The appended age carries the row's values, and a data source exactly when the row has a citation. */
  lemma StoreStepAgeValues(v: RowValues, config: Config, refs: Refs, batch: BatchId, s: State)
    requires SourcesValid(s.sources, s.tables.dataSources)
    requires !Skipped(v, config, s.tables.ages)
    ensures var r := StoreStep(v, config, refs, batch, s);
      |r.tables.ages| == |s.tables.ages| + 1
      && var a := r.tables.ages[|s.tables.ages|];
         a.labCode == v.labCode.value && a.sampleId == |r.tables.samples|
         && a.isRejected == v.isRejected && a.rejectionReason == v.rejectionReason
         && a.qualityIssues == v.qualityIssues
         && a.c14Age == v.c14Age && a.lumAgeKa == v.lumAgeKa
         && a.ageBp == v.ageBp && a.ageError == v.ageError
         && (a.dataSourceId.Some? <==> v.citation != [])
         && (a.dataSourceId.Some? ==>
               1 <= a.dataSourceId.value <= |r.tables.dataSources|
               && r.tables.dataSources[a.dataSourceId.value - 1].citation == v.citation)
  {
    StoreStepAge(v, config, refs, batch, s);
    if v.citation != [] {
      SourceStepId(s.sources, s.tables.dataSources, v.citation);
    }
  }

  /** What `ReadRow` takes from a row for its age: rejection, issues, age columns and citation. */
  lemma ReadRowAgeFields(row: Row, config: Config)
    ensures var v := ReadRow(row, config);
      var dateIssues, notes := Field(row, DATE_ISSUES), Field(row, NOTES);
      var m := DetermineMethod(Field(row, METHOD), Field(row, TECHNIQUE), LabCodeOf(row).GetOr([]));
      var age := ParseInt(Field(row, AGE));
      v.labCode == LabCodeOf(row)
      && (v.isRejected <==> Strip(dateIssues) != [] || Contains(Lower(notes), "reject"))
      && (v.rejectionReason.Some? <==> v.isRejected)
      && (v.rejectionReason.Some? ==> v.rejectionReason.value == dateIssues)
      && (v.qualityIssues.None? <==> IsBlank(dateIssues) && IsBlank(Field(row, ADDITIONAL_DATA_ISSUES)))
      && v.ageBp == age && v.ageError == ParseInt(Field(row, ERROR))
      && (v.c14Age.Some? <==> m.IsRadiocarbon() && age.Some?)
      && (v.c14Age.Some? ==> v.c14Age == age)
      && (v.lumAgeKa.Some? ==> m.IsLuminescence())
      && v.citation == Field(row, SOURCE)
  {
    QualityIssuesShape(Field(row, DATE_ISSUES), Field(row, ADDITIONAL_DATA_ISSUES));
  }

  /**
   * The age row an accepted CSV row appends (ingest.py:585-648): it is
   * rejected exactly when the date issues are not blank or the notes mention
   * a rejection, and then the raw date issues are its reason; its quality
   * issues are NULL exactly when both issue columns are blank; the
   * radiocarbon columns are filled only for a radiocarbon method and the
   * luminescence ones only for a luminescence method; and it points at a
   * data source exactly when the row has a citation (`StoreStepAgeValues`
   * shows that data source holds the citation).
   */
  lemma RowStepAcceptedAge(row: Row, config: Config, refs: Refs, batch: BatchId, s: State)
    requires SourcesValid(s.sources, s.tables.dataSources)
    requires !Skipped(ReadRow(row, config), config, s.tables.ages)
    ensures var r := RowStep(row, config, refs, batch, s);
      |r.tables.ages| == |s.tables.ages| + 1
      && var a := r.tables.ages[|s.tables.ages|];
         var dateIssues, notes := Field(row, DATE_ISSUES), Field(row, NOTES);
         var m := DetermineMethod(Field(row, METHOD), Field(row, TECHNIQUE), LabCodeOf(row).value);
         var age := ParseInt(Field(row, AGE));
         a.labCode == LabCodeOf(row).value
         && a.sampleId == |r.tables.samples|
         && (a.isRejected <==> Strip(dateIssues) != [] || Contains(Lower(notes), "reject"))
         && (a.rejectionReason.Some? <==> a.isRejected)
         && (a.rejectionReason.Some? ==> a.rejectionReason.value == dateIssues)
         && (a.qualityIssues.None? <==> IsBlank(dateIssues) && IsBlank(Field(row, ADDITIONAL_DATA_ISSUES)))
         && a.ageBp == age && a.ageError == ParseInt(Field(row, ERROR))
         && (a.c14Age.Some? <==> m.IsRadiocarbon() && age.Some?)
         && (a.c14Age.Some? ==> a.c14Age == age)
         && (a.lumAgeKa.Some? ==> m.IsLuminescence())
         && (a.dataSourceId.Some? <==> Field(row, SOURCE) != [])
         && (a.dataSourceId.Some? ==> 1 <= a.dataSourceId.value <= |r.tables.dataSources|)
  {
    var v := ReadRow(row, config);
    assert RowStep(row, config, refs, batch, s) == StoreStep(v, config, refs, batch, s);
    ReadRowAgeFields(row, config);
    assert LabCodeOf(row).GetOr([]) == LabCodeOf(row).value;
    StoreStepAgeValues(v, config, refs, batch, s);
  }

  /** A row whose coordinates were dropped never puts coordinates in the site table. */
  lemma StoreStepNoCoordinates(v: RowValues, config: Config, refs: Refs, batch: BatchId, s: State)
    requires v.coords.lat.None? && v.coords.lon.None?
    ensures var r := StoreStep(v, config, refs, batch, s);
      var found := FindSiteIndex(s.tables.sites, v.siteName).Some?;
      (Skipped(v, config, s.tables.ages) || found ==> r.tables.sites == s.tables.sites)
      && (!Skipped(v, config, s.tables.ages) && !found ==>
            r.tables.sites == s.tables.sites + [NewSite(v, batch)])
  {
    MatchSiteSpec(s.tables.sites, v.siteName, v.coords.lat, v.coords.lon);
  }

  /**
   * A row whose two coordinates parse but fail the bounds check, with
   * validation on (ingest.py:511-519, 548-560): one error is recorded, a site
   * the row creates has no latitude and no longitude, and a site it matches
   * is not back-filled.
   */
  lemma RowStepInvalidCoordinates(row: Row, config: Config, refs: Refs, batch: BatchId, s: State)
    requires config.validateCoordinates
    requires ParseFloat(Field(row, LATITUDE)).Some? && ParseFloat(Field(row, LONGITUDE)).Some?
    requires !ValidateCoordinates(ParseFloat(Field(row, LATITUDE)).value, ParseFloat(Field(row, LONGITUDE)).value, config)
    ensures var r := RowStep(row, config, refs, batch, s);
      var lat, lon := ParseFloat(Field(row, LATITUDE)).value, ParseFloat(Field(row, LONGITUDE)).value;
      var accepted := !Skipped(ReadRow(row, config), config, s.tables.ages);
      var found := FindSiteIndex(s.tables.sites, SiteNameOf(row)).Some?;
      r.counts.errors == s.counts.errors + [InvalidCoordinates(lat, lon)]
      && (!accepted || found ==> r.tables.sites == s.tables.sites)
      && (accepted && !found ==>
            |r.tables.sites| == |s.tables.sites| + 1 && r.tables.sites[..|s.tables.sites|] == s.tables.sites
            && var site := r.tables.sites[|s.tables.sites|];
               site.name == SiteNameOf(row) && site.latitude.None? && site.longitude.None?)
  {
    var v := ReadRow(row, config);
    ReadRowLabCode(row, config);
    CheckCoordinatesNulling(ParseFloat(Field(row, LATITUDE)), ParseFloat(Field(row, LONGITUDE)), config);
    StoreStepNoCoordinates(v, config, refs, batch, s);
    if Skipped(v, config, s.tables.ages) {
      StoreStepSkipped(v, config, refs, batch, s);
    } else {
      StoreStepAccepted(v, config, refs, batch, s);
    }
  }

  /** References between the tables hold, and the cache agrees with `data_source`. */
  predicate Consistent(s: State) {
    var t := s.tables;
    SourcesValid(s.sources, t.dataSources) && CitationsUnique(t.dataSources)
    && (forall i :: 0 <= i < |t.samples| ==> 1 <= t.samples[i].siteId <= |t.sites|)
    && (forall i :: 0 <= i < |t.ages| ==> 1 <= t.ages[i].sampleId <= |t.samples|)
    && (forall i :: 0 <= i < |t.ages| && t.ages[i].dataSourceId.Some? ==>
          1 <= t.ages[i].dataSourceId.value <= |t.dataSources|)
  }

  /** The site step keeps or lengthens the site table, and the id it yields names a site. */
  lemma SiteStepRange(v: RowValues, batch: BatchId, sites: seq<Site>, counts: Counts)
    ensures var o := SiteStep(v, batch, sites, counts);
      |sites| <= |o.sites| && 1 <= o.siteId <= |o.sites|
  {
    MatchSiteSpec(sites, v.siteName, v.coords.lat, v.coords.lon);
  }

  /** Appending a sample for an existing site, a data source and an age keeps the references intact. */
  lemma RecordStepConsistent(v: RowValues, refs: Refs, batch: BatchId, labCode: string, siteId: nat, s: State)
    requires Consistent(s) && 1 <= siteId <= |s.tables.sites|
    ensures Consistent(RecordStep(v, refs, batch, labCode, siteId, s))
  {
    var s2 := Sampled(v, refs, siteId, s);
    SampledConsistent(v, refs, siteId, s);
    var source := SourceStep(s2.sources, s2.tables.dataSources, v.citation);
    SourceStepValid(s2.sources, s2.tables.dataSources, v.citation);
    SourceStepRows(s2.sources, s2.tables.dataSources, v.citation);
    SourcedConsistent(source, s2);
    if v.citation != [] {
      SourceStepId(s2.sources, s2.tables.dataSources, v.citation);
    }
    AgedConsistent(v, refs, batch, labCode, source.id, Sourced(source, s2));
  }

  lemma SampledConsistent(v: RowValues, refs: Refs, siteId: nat, s: State)
    requires Consistent(s) && 1 <= siteId <= |s.tables.sites|
    ensures Consistent(Sampled(v, refs, siteId, s))
  {
  }

  lemma SourcedConsistent(source: SourceResult, s: State)
    requires Consistent(s) && SourcesValid(source.sources, source.rows) && CitationsUnique(source.rows)
    requires |s.tables.dataSources| <= |source.rows|
    ensures Consistent(Sourced(source, s))
  {
  }

  lemma AgedConsistent(v: RowValues, refs: Refs, batch: BatchId, labCode: string, sourceId: Option<nat>, s: State)
    requires Consistent(s) && 1 <= |s.tables.samples|
    requires sourceId.Some? ==> 1 <= sourceId.value <= |s.tables.dataSources|
    ensures Consistent(Aged(v, refs, batch, labCode, sourceId, s))
  {
  }

  /** Every sample names an existing site, every age an existing sample and data source; a row keeps this. */
  lemma StoreStepConsistent(v: RowValues, config: Config, refs: Refs, batch: BatchId, s: State)
    requires Consistent(s)
    ensures Consistent(StoreStep(v, config, refs, batch, s))
  {
    if !Skipped(v, config, s.tables.ages) {
      var c := Checked(v.coords, s);
      var site := SiteStep(v, batch, c.tables.sites, c.counts);
      SiteStepRange(v, batch, c.tables.sites, c.counts);
      var s1 := c.(tables := c.tables.(sites := site.sites), counts := site.counts);
      assert Consistent(s1);
      RecordStepConsistent(v, refs, batch, v.labCode.value, site.siteId, s1);
    }
  }

  /** No two age rows share a lab code. */
  predicate LabCodesUnique(ages: seq<AgeDetermination>) {
    forall i, j :: 0 <= i < j < |ages| ==> ages[i].labCode != ages[j].labCode
  }

  /** With existing lab codes skipped, a row never adds a second age with a lab code already stored. */
  lemma StoreStepLabCodesUnique(v: RowValues, config: Config, refs: Refs, batch: BatchId, s: State)
    requires config.skipExisting && LabCodesUnique(s.tables.ages)
    ensures LabCodesUnique(StoreStep(v, config, refs, batch, s).tables.ages)
  {
    if !Skipped(v, config, s.tables.ages) {
      StoreStepAccepted(v, config, refs, batch, s);
      var ages := StoreStep(v, config, refs, batch, s).tables.ages;
      forall i, j | 0 <= i < j < |ages| ensures ages[i].labCode != ages[j].labCode {
        if j < |s.tables.ages| {
          assert ages[i] == s.tables.ages[i] && ages[j] == s.tables.ages[j];
        } else {
          assert ages[i] == s.tables.ages[i];
        }
      }
    }
  }

  /** With existing lab codes skipped, after a row with a lab code is processed that lab code is stored, so the same row is skipped next time. */
  lemma StoreStepKnown(v: RowValues, config: Config, refs: Refs, batch: BatchId, s: State)
    requires config.skipExisting && v.labCode.Some?
    ensures HasLabCode(StoreStep(v, config, refs, batch, s).tables.ages, v.labCode.value)
  {
    if !Skipped(v, config, s.tables.ages) {
      StoreStepAccepted(v, config, refs, batch, s);
      var ages := StoreStep(v, config, refs, batch, s).tables.ages;
      assert ages[|s.tables.ages|].labCode == v.labCode.value;
    }
  }

  // ---------------------------------------------------------------------------
  // One file
  // ---------------------------------------------------------------------------

  /** The rows of a file processed in order (ingest.py:676-690). */
  function RunRows(rows: seq<Row>, config: Config, refs: Refs, batch: BatchId, s: State): State
    decreases |rows|
  {
    if rows == [] then s
    else RowStep(rows[|rows| - 1], config, refs, batch, RunRows(rows[..|rows| - 1], config, refs, batch, s))
  }

  lemma RunRowsSnoc(rows: seq<Row>, i: nat, config: Config, refs: Refs, batch: BatchId, s: State)
    requires i < |rows|
    ensures RunRows(rows[..i + 1], config, refs, batch, s) == RowStep(rows[i], config, refs, batch, RunRows(rows[..i], config, refs, batch, s))
  {
    var p := rows[..i + 1];
    assert p[..|p| - 1] == rows[..i];
    assert p[|p| - 1] == rows[i];
  }

  /** `ingest_csv_file`: fresh counters, then every row in order. */
  method IngestCsvFile(rows: seq<Row>, cache: ReferenceDataCache, config: Config, batch: BatchId) returns (stats: IngestStats)
    requires cache.Valid()
    modifies cache`sources, cache.db`sites, cache.db`samples, cache.db`ages, cache.db`dataSources
    ensures fresh(stats) && cache.Valid()
    ensures Current(cache, stats) ==
      RunRows(rows, config, Refs(cache.methods, cache.materials), batch, State(old(cache.db.Snapshot()), old(cache.sources), NoCounts))
  {
    stats := new IngestStats();
    ghost var refs := Refs(cache.methods, cache.materials);
    ghost var s0 := Current(cache, stats);
    for i := 0 to |rows|
      invariant cache.Valid()
      invariant Current(cache, stats) == RunRows(rows[..i], config, refs, batch, s0)
      invariant refs == Refs(cache.methods, cache.materials)
      invariant fresh(stats)
    {
      ProcessRadiocarbonRow(rows[i], cache, config, batch, stats);
      RunRowsSnoc(rows, i, config, refs, batch, s0);
    }
    assert rows[..|rows|] == rows;
  }

  /**
   * The counters account for the tables: every row counts as one created or
   * one skipped age; each created age has its own new sample and its own new
   * age row; each sample comes with one created or one matched site; and
   * only created sites add site rows.
   */
  predicate Balanced(s0: State, s: State, n: nat) {
    var a, b := s.counts, s0.counts;
    a.agesCreated + a.agesSkipped == b.agesCreated + b.agesSkipped + n
    && |s.tables.ages| + b.agesCreated == |s0.tables.ages| + a.agesCreated
    && |s.tables.samples| + b.samplesCreated == |s0.tables.samples| + a.samplesCreated
    && |s.tables.sites| + b.sitesCreated == |s0.tables.sites| + a.sitesCreated
    && a.samplesCreated + b.agesCreated == b.samplesCreated + a.agesCreated
    && a.sitesCreated + a.sitesMatched + b.samplesCreated == b.sitesCreated + b.sitesMatched + a.samplesCreated
  }

  lemma StoreStepBalanced(v: RowValues, config: Config, refs: Refs, batch: BatchId, s: State)
    ensures Balanced(s, StoreStep(v, config, refs, batch, s), 1)
  {
    if Skipped(v, config, s.tables.ages) {
      StoreStepSkipped(v, config, refs, batch, s);
    } else {
      StoreStepAccepted(v, config, refs, batch, s);
    }
  }

  /** A file's counters agree with what it added to the tables. */
  lemma {:induction false} RunRowsBalanced(rows: seq<Row>, config: Config, refs: Refs, batch: BatchId, s: State)
    ensures Balanced(s, RunRows(rows, config, refs, batch, s), |rows|)
    decreases |rows|
  {
    if rows != [] {
      var p := RunRows(rows[..|rows| - 1], config, refs, batch, s);
      RunRowsBalanced(rows[..|rows| - 1], config, refs, batch, s);
      StoreStepBalanced(ReadRow(rows[|rows| - 1], config), config, refs, batch, p);
    }
  }

  /** A file keeps the references between the tables intact. */
  lemma {:induction false} RunRowsConsistent(rows: seq<Row>, config: Config, refs: Refs, batch: BatchId, s: State)
    requires Consistent(s)
    ensures Consistent(RunRows(rows, config, refs, batch, s))
    decreases |rows|
  {
    if rows != [] {
      var p := RunRows(rows[..|rows| - 1], config, refs, batch, s);
      RunRowsConsistent(rows[..|rows| - 1], config, refs, batch, s);
      StoreStepConsistent(ReadRow(rows[|rows| - 1], config), config, refs, batch, p);
    }
  }

  /** With existing lab codes skipped, a file never stores a lab code twice. */
  lemma {:induction false} RunRowsLabCodesUnique(rows: seq<Row>, config: Config, refs: Refs, batch: BatchId, s: State)
    requires config.skipExisting && LabCodesUnique(s.tables.ages)
    ensures LabCodesUnique(RunRows(rows, config, refs, batch, s).tables.ages)
    decreases |rows|
  {
    if rows != [] {
      var p := RunRows(rows[..|rows| - 1], config, refs, batch, s);
      RunRowsLabCodesUnique(rows[..|rows| - 1], config, refs, batch, s);
      StoreStepLabCodesUnique(ReadRow(rows[|rows| - 1], config), config, refs, batch, p);
    }
  }

  /** Age rows are only ever appended. */
  lemma StoreStepAgesGrow(v: RowValues, config: Config, refs: Refs, batch: BatchId, s: State)
    ensures var ages := StoreStep(v, config, refs, batch, s).tables.ages;
      |s.tables.ages| <= |ages| && ages[..|s.tables.ages|] == s.tables.ages
  {
    if Skipped(v, config, s.tables.ages) {
      StoreStepSkipped(v, config, refs, batch, s);
    } else {
      StoreStepAccepted(v, config, refs, batch, s);
    }
  }

  /** A lab code stored stays stored when more age rows are appended. */
  lemma HasLabCodeGrow(ages: seq<AgeDetermination>, more: seq<AgeDetermination>, labCode: string)
    requires HasLabCode(ages, labCode) && |ages| <= |more| && more[..|ages|] == ages
    ensures HasLabCode(more, labCode)
  {
    var i :| 0 <= i < |ages| && ages[i].labCode == labCode;
    assert more[i] == ages[i];
  }

  /** Every lab code of `rows` is stored in `ages`. */
  predicate AllKnown(rows: seq<Row>, ages: seq<AgeDetermination>) {
    forall j :: 0 <= j < |rows| && LabCodeOf(rows[j]).Some? ==> HasLabCode(ages, LabCodeOf(rows[j]).value)
  }

  lemma AllKnownExtend(rows: seq<Row>, ages: seq<AgeDetermination>, more: seq<AgeDetermination>)
    requires rows != [] && AllKnown(rows[..|rows| - 1], ages)
    requires |ages| <= |more| && more[..|ages|] == ages
    requires LabCodeOf(rows[|rows| - 1]).Some? ==> HasLabCode(more, LabCodeOf(rows[|rows| - 1]).value)
    ensures AllKnown(rows, more)
  {
    forall j | 0 <= j < |rows| - 1 && LabCodeOf(rows[j]).Some? ensures HasLabCode(more, LabCodeOf(rows[j]).value) {
      assert rows[j] == rows[..|rows| - 1][j];
      HasLabCodeGrow(ages, more, LabCodeOf(rows[j]).value);
    }
  }

  /** With existing lab codes skipped, after a file every lab code it carries is stored. */
  lemma {:induction false} RunRowsKnown(rows: seq<Row>, config: Config, refs: Refs, batch: BatchId, s: State)
    requires config.skipExisting
    ensures AllKnown(rows, RunRows(rows, config, refs, batch, s).tables.ages)
    decreases |rows|
  {
    if rows != [] {
      var last := rows[|rows| - 1];
      var p := RunRows(rows[..|rows| - 1], config, refs, batch, s);
      var v := ReadRow(last, config);
      RunRowsKnown(rows[..|rows| - 1], config, refs, batch, s);
      ReadRowLabCode(last, config);
      StoreStepAgesGrow(v, config, refs, batch, p);
      if v.labCode.Some? {
        StoreStepKnown(v, config, refs, batch, p);
      }
      AllKnownExtend(rows, p.tables.ages, StoreStep(v, config, refs, batch, p).tables.ages);
    }
  }

  /** With existing lab codes skipped, a file whose lab codes are all stored changes no table and no cache entry. */
  lemma {:induction false} RunRowsAllKnown(rows: seq<Row>, config: Config, refs: Refs, batch: BatchId, s: State)
    requires config.skipExisting
    requires AllKnown(rows, s.tables.ages)
    ensures var r := RunRows(rows, config, refs, batch, s); r.tables == s.tables && r.sources == s.sources
    decreases |rows|
  {
    if rows != [] {
      var init := rows[..|rows| - 1];
      var last := rows[|rows| - 1];
      assert forall j :: 0 <= j < |init| ==> init[j] == rows[j];
      assert AllKnown(init, s.tables.ages);
      RunRowsAllKnown(init, config, refs, batch, s);
      var p := RunRows(init, config, refs, batch, s);
      ReadRowLabCode(last, config);
      StoreStepSkipped(ReadRow(last, config), config, refs, batch, p);
    }
  }

  /** Ingesting the same file again with existing lab codes skipped changes no table and no cache entry. */
  lemma RunRowsReplay(rows: seq<Row>, config: Config, refs: Refs, batch: BatchId, s: State)
    requires config.skipExisting
    ensures var once := RunRows(rows, config, refs, batch, s);
      var twice := RunRows(rows, config, refs, batch, once);
      twice.tables == once.tables && twice.sources == once.sources
  {
    RunRowsKnown(rows, config, refs, batch, s);
    RunRowsAllKnown(rows, config, refs, batch, RunRows(rows, config, refs, batch, s));
  }

  /** The ages of `ages` are the first rows of `more`. */
  predicate Extends(ages: seq<AgeDetermination>, more: seq<AgeDetermination>) {
    |ages| <= |more| && more[..|ages|] == ages
  }

  lemma ExtendsTrans(a: seq<AgeDetermination>, b: seq<AgeDetermination>, c: seq<AgeDetermination>)
    requires Extends(a, b) && Extends(b, c)
    ensures Extends(a, c)
  {
    assert c[..|a|] == c[..|b|][..|a|];
  }

  /** A file only appends age rows. */
  lemma {:induction false} RunRowsAgesGrow(rows: seq<Row>, config: Config, refs: Refs, batch: BatchId, s: State)
    ensures Extends(s.tables.ages, RunRows(rows, config, refs, batch, s).tables.ages)
    decreases |rows|
  {
    if rows != [] {
      var p := RunRows(rows[..|rows| - 1], config, refs, batch, s);
      RunRowsAgesGrow(rows[..|rows| - 1], config, refs, batch, s);
      StoreStepAgesGrow(ReadRow(rows[|rows| - 1], config), config, refs, batch, p);
      ExtendsTrans(s.tables.ages, p.tables.ages, RunRows(rows, config, refs, batch, s).tables.ages);
    }
  }

  lemma AllKnownGrow(rows: seq<Row>, ages: seq<AgeDetermination>, more: seq<AgeDetermination>)
    requires AllKnown(rows, ages) && Extends(ages, more)
    ensures AllKnown(rows, more)
  {
    forall j | 0 <= j < |rows| && LabCodeOf(rows[j]).Some? ensures HasLabCode(more, LabCodeOf(rows[j]).value) {
      HasLabCodeGrow(ages, more, LabCodeOf(rows[j]).value);
    }
  }

  // ---------------------------------------------------------------------------
  // The whole run
  // ---------------------------------------------------------------------------

  /** A file found in the data directory, by file name, with its rows already read. */
  datatype DataFile = DataFile(name: string, rows: seq<Row>)

  /** Citation and reference lists carry no ages and are skipped (ingest.py:735-740). */
  predicate IsReferenceFile(name: string) {
    Contains(Lower(name), "citation") || Contains(Lower(name), "reference")
  }

  /** The dataset the batch records as its source (ingest.py:727). */
  const SourceUrl := "https://doi.org/10.5284/1027216"

  /** The fixed text around the counters in a completed batch's `notes` (ingest.py:769-770). */
  const SummaryLabels: seq<string> := ["Sites: ", " new, ", " matched. Ages: ", " created, ", " skipped."]

  /** The `notes` of a completed batch: sites created and matched, ages created and skipped. */
  function SummaryNotes(c: Counts): string {
    FillCounts(SummaryLabels, [c.sitesCreated, c.sitesMatched, c.agesCreated, c.agesSkipped])
  }

  /** The notes name the four counters: they read back as sites created, sites matched, ages created and ages skipped. */
  lemma SummaryNotesReadBack(c: Counts)
    ensures ReadCounts(SummaryLabels, SummaryNotes(c))
      == Some([c.sitesCreated, c.sitesMatched, c.agesCreated, c.agesSkipped])
  {
    assert Separating(SummaryLabels) by {
      forall i | 1 <= i < |SummaryLabels| ensures SummaryLabels[i] != [] && !IsDigit(SummaryLabels[i][0]) {
        assert SummaryLabels[i][0] == ' ';
      }
    }
    ReadCountsFill(SummaryLabels, [c.sitesCreated, c.sitesMatched, c.agesCreated, c.agesSkipped]);
  }

  /** One file of the run: its own counters from zero, then added to the totals. */
  function FileStep(file: DataFile, config: Config, refs: Refs, batch: BatchId, s: State): State {
    if IsReferenceFile(file.name) then s
    else
      var r := RunRows(file.rows, config, refs, batch, s.(counts := NoCounts));
      r.(counts := AddCounts(s.counts, r.counts))
  }

  /** The files of the run processed in order (ingest.py:734-757). */
  function RunFiles(files: seq<DataFile>, config: Config, refs: Refs, batch: BatchId, s: State): State
    decreases |files|
  {
    if files == [] then s
    else FileStep(files[|files| - 1], config, refs, batch, RunFiles(files[..|files| - 1], config, refs, batch, s))
  }

  /** The number of rows in the files that are not reference files. */
  function DataRows(files: seq<DataFile>): nat
    decreases |files|
  {
    if files == [] then 0
    else DataRows(files[..|files| - 1]) + (if IsReferenceFile(files[|files| - 1].name) then 0 else |files[|files| - 1].rows|)
  }

  lemma RunFilesSnoc(files: seq<DataFile>, i: nat, config: Config, refs: Refs, batch: BatchId, s: State)
    requires i < |files|
    ensures RunFiles(files[..i + 1], config, refs, batch, s) == FileStep(files[i], config, refs, batch, RunFiles(files[..i], config, refs, batch, s))
  {
    assert files[..i + 1][..i] == files[..i];
  }

  /** The loop of `run_ingestion` over the data files, with one shared cache and the run totals. */
  method IngestFiles(files: seq<DataFile>, cache: ReferenceDataCache, config: Config, batch: BatchId, total: IngestStats)
    requires cache.Valid()
    modifies cache`sources, cache.db`sites, cache.db`samples, cache.db`ages, cache.db`dataSources, total
    ensures cache.Valid()
    ensures Current(cache, total) == RunFiles(files, config, Refs(cache.methods, cache.materials), batch, old(Current(cache, total)))
  {
    ghost var refs := Refs(cache.methods, cache.materials);
    ghost var s0 := Current(cache, total);
    for i := 0 to |files|
      invariant cache.Valid()
      invariant refs == Refs(cache.methods, cache.materials)
      invariant Current(cache, total) == RunFiles(files[..i], config, refs, batch, s0)
    {
      RunFilesSnoc(files, i, config, refs, batch, s0);
      if IsReferenceFile(files[i].name) {
        continue;
      }
      var stats := IngestCsvFile(files[i].rows, cache, config, batch);
      total.Add(stats);
    }
    assert files[..|files|] == files;
  }

  /**
   * `run_ingestion`. Nothing happens without a data directory or without data
   * files; otherwise one batch row is opened, every file that is not a
   * reference list is ingested with one shared cache, and the batch row is
   * closed with the number of ages created and a summary of the totals.
   */
  method RunIngestion(db: Database, config: Config, dataDirExists: bool, files: seq<DataFile>, batch: BatchId)
    modifies db
    ensures !dataDirExists || files == [] ==> unchanged(db)
    ensures dataDirExists && files != [] ==>
      var refs := Refs(CodeIndex(old(db.datingMethods)), CodeIndex(old(db.sampleMaterials)));
      var r := RunFiles(files, config, refs, batch, State(old(db.Snapshot()), map[], NoCounts));
      db.Snapshot() == r.tables
      && db.batches == old(db.batches) + [ImportBatch(batch, SourceUrl, Completed, Some(r.counts.agesCreated), Some(SummaryNotes(r.counts)))]
    ensures db.datingMethods == old(db.datingMethods) && db.sampleMaterials == old(db.sampleMaterials)
  {
    if !dataDirExists || files == [] {
      return;
    }
    db.batches := db.batches + [ImportBatch(batch, SourceUrl, Running, None, None)];
    var cache := new ReferenceDataCache(db);
    var total := new IngestStats();
    IngestFiles(files, cache, config, batch, total);
    db.batches := db.batches[|db.batches| - 1 := ImportBatch(batch, SourceUrl, Completed, Some(total.agesCreated), Some(SummaryNotes(total.Snapshot())))];
  }

  /** One file keeps the counters in step with the tables. */
  lemma FileStepBalanced(file: DataFile, config: Config, refs: Refs, batch: BatchId, s: State)
    ensures Balanced(s, FileStep(file, config, refs, batch, s), if IsReferenceFile(file.name) then 0 else |file.rows|)
  {
    if !IsReferenceFile(file.name) {
      RunRowsBalanced(file.rows, config, refs, batch, s.(counts := NoCounts));
    }
  }

  /**
   * The run totals account for the tables: ages created plus ages skipped is
   * the number of data rows read, and each created count is what its table grew by.
   */
  lemma {:induction false} RunFilesBalanced(files: seq<DataFile>, config: Config, refs: Refs, batch: BatchId, s: State)
    ensures Balanced(s, RunFiles(files, config, refs, batch, s), DataRows(files))
    decreases |files|
  {
    if files != [] {
      var p := RunFiles(files[..|files| - 1], config, refs, batch, s);
      RunFilesBalanced(files[..|files| - 1], config, refs, batch, s);
      FileStepBalanced(files[|files| - 1], config, refs, batch, p);
    }
  }

  /** The record count of a completed batch is the number of age rows the run added. */
  lemma RunFilesRecordCount(files: seq<DataFile>, config: Config, refs: Refs, batch: BatchId, t: Tables)
    ensures var r := RunFiles(files, config, refs, batch, State(t, map[], NoCounts));
      |r.tables.ages| == |t.ages| + r.counts.agesCreated
      && |r.tables.samples| == |t.samples| + r.counts.samplesCreated
      && |r.tables.sites| == |t.sites| + r.counts.sitesCreated
      && r.counts.agesCreated + r.counts.agesSkipped == DataRows(files)
  {
    RunFilesBalanced(files, config, refs, batch, State(t, map[], NoCounts));
  }

  /** A run keeps the references between the tables intact. */
  lemma {:induction false} RunFilesConsistent(files: seq<DataFile>, config: Config, refs: Refs, batch: BatchId, s: State)
    requires Consistent(s)
    ensures Consistent(RunFiles(files, config, refs, batch, s))
    decreases |files|
  {
    if files != [] {
      var p := RunFiles(files[..|files| - 1], config, refs, batch, s);
      RunFilesConsistent(files[..|files| - 1], config, refs, batch, s);
      if !IsReferenceFile(files[|files| - 1].name) {
        RunRowsConsistent(files[|files| - 1].rows, config, refs, batch, p.(counts := NoCounts));
      }
    }
  }

  /** With existing lab codes skipped, a run never stores a lab code twice. */
  lemma {:induction false} RunFilesLabCodesUnique(files: seq<DataFile>, config: Config, refs: Refs, batch: BatchId, s: State)
    requires config.skipExisting && LabCodesUnique(s.tables.ages)
    ensures LabCodesUnique(RunFiles(files, config, refs, batch, s).tables.ages)
    decreases |files|
  {
    if files != [] {
      var p := RunFiles(files[..|files| - 1], config, refs, batch, s);
      RunFilesLabCodesUnique(files[..|files| - 1], config, refs, batch, s);
      if !IsReferenceFile(files[|files| - 1].name) {
        RunRowsLabCodesUnique(files[|files| - 1].rows, config, refs, batch, p.(counts := NoCounts));
      }
    }
  }

  /** Every lab code of every data file is stored in `ages`. */
  predicate FilesKnown(files: seq<DataFile>, ages: seq<AgeDetermination>) {
    forall f :: 0 <= f < |files| && !IsReferenceFile(files[f].name) ==> AllKnown(files[f].rows, ages)
  }

  lemma FilesKnownGrow(files: seq<DataFile>, ages: seq<AgeDetermination>, more: seq<AgeDetermination>)
    requires FilesKnown(files, ages) && Extends(ages, more)
    ensures FilesKnown(files, more)
  {
    forall f | 0 <= f < |files| && !IsReferenceFile(files[f].name) ensures AllKnown(files[f].rows, more) {
      AllKnownGrow(files[f].rows, ages, more);
    }
  }

  /** A run only appends age rows. */
  lemma {:induction false} RunFilesAgesGrow(files: seq<DataFile>, config: Config, refs: Refs, batch: BatchId, s: State)
    ensures Extends(s.tables.ages, RunFiles(files, config, refs, batch, s).tables.ages)
    decreases |files|
  {
    if files != [] {
      var p := RunFiles(files[..|files| - 1], config, refs, batch, s);
      RunFilesAgesGrow(files[..|files| - 1], config, refs, batch, s);
      if !IsReferenceFile(files[|files| - 1].name) {
        RunRowsAgesGrow(files[|files| - 1].rows, config, refs, batch, p.(counts := NoCounts));
        ExtendsTrans(s.tables.ages, p.tables.ages, RunFiles(files, config, refs, batch, s).tables.ages);
      }
    }
  }

  /** With existing lab codes skipped, after a run every lab code of its data files is stored. */
  lemma {:induction false} RunFilesKnown(files: seq<DataFile>, config: Config, refs: Refs, batch: BatchId, s: State)
    requires config.skipExisting
    ensures FilesKnown(files, RunFiles(files, config, refs, batch, s).tables.ages)
    decreases |files|
  {
    if files != [] {
      var init := files[..|files| - 1];
      var last := files[|files| - 1];
      var p := RunFiles(init, config, refs, batch, s);
      var ages := RunFiles(files, config, refs, batch, s).tables.ages;
      RunFilesKnown(init, config, refs, batch, s);
      if IsReferenceFile(last.name) {
        FilesKnownSnoc(files, ages);
      } else {
        RunRowsAgesGrow(last.rows, config, refs, batch, p.(counts := NoCounts));
        FilesKnownGrow(init, p.tables.ages, ages);
        RunRowsKnown(last.rows, config, refs, batch, p.(counts := NoCounts));
        FilesKnownSnoc(files, ages);
      }
    }
  }

  lemma FilesKnownSnoc(files: seq<DataFile>, ages: seq<AgeDetermination>)
    requires files != [] && FilesKnown(files[..|files| - 1], ages)
    requires !IsReferenceFile(files[|files| - 1].name) ==> AllKnown(files[|files| - 1].rows, ages)
    ensures FilesKnown(files, ages)
  {
    forall f | 0 <= f < |files| - 1 && !IsReferenceFile(files[f].name) ensures AllKnown(files[f].rows, ages) {
      assert files[f] == files[..|files| - 1][f];
    }
  }

  /** With existing lab codes skipped, a run whose lab codes are all stored changes no table. */
  lemma {:induction false} RunFilesAllKnown(files: seq<DataFile>, config: Config, refs: Refs, batch: BatchId, s: State)
    requires config.skipExisting && FilesKnown(files, s.tables.ages)
    ensures RunFiles(files, config, refs, batch, s).tables == s.tables
    decreases |files|
  {
    if files != [] {
      var init := files[..|files| - 1];
      var last := files[|files| - 1];
      assert FilesKnown(init, s.tables.ages) by {
        forall f | 0 <= f < |init| && !IsReferenceFile(init[f].name) ensures AllKnown(init[f].rows, s.tables.ages) {
          assert init[f] == files[f];
        }
      }
      RunFilesAllKnown(init, config, refs, batch, s);
      if !IsReferenceFile(last.name) {
        var p := RunFiles(init, config, refs, batch, s);
        RunRowsAllKnown(last.rows, config, refs, batch, p.(counts := NoCounts));
      }
    }
  }

  /**
   * Running the ingestion a second time over the same files, with existing
   * lab codes skipped (the default), leaves the site, sample, age and data
   * source tables as the first run left them; only its own batch row is new.
   */
  lemma RunFilesReplay(files: seq<DataFile>, config: Config, refs: Refs, batch: BatchId, again: BatchId, t: Tables)
    requires config.skipExisting
    ensures var once := RunFiles(files, config, refs, batch, State(t, map[], NoCounts));
      RunFiles(files, config, refs, again, State(once.tables, map[], NoCounts)).tables == once.tables
  {
    var once := RunFiles(files, config, refs, batch, State(t, map[], NoCounts));
    RunFilesKnown(files, config, refs, batch, State(t, map[], NoCounts));
    RunFilesAllKnown(files, config, refs, again, State(once.tables, map[], NoCounts));
  }
}
