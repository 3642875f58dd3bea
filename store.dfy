/**
 * The database as in-memory tables, the reference-data cache
 * (`ReferenceDataCache`, ingest.py:427-483) and the run counters
 * (`IngestStats`, ingest.py:490-498).
 *
 * Every table is a sequence of rows; the row at index `k` has the serial id
 * `k + 1`, which is what `INSERT ... RETURNING id` hands back.
 */
module Store {
  import opened Wrappers
  import opened Fields
  import opened Records

  /** The `status` column of `import_batch`. */
  datatype BatchStatus = Running | Completed

  /** A row of the `import_batch` table (ingest.py:724-727, 760-772). */
  datatype ImportBatch = ImportBatch(
    id: BatchId,
    sourceUrl: string,
    status: BatchStatus,
    recordCount: Option<nat>,
    notes: Option<string>)

  /** The tables a row of a source file writes to. */
  datatype Tables = Tables(
    sites: seq<Site>,
    samples: seq<Sample>,
    ages: seq<AgeDetermination>,
    dataSources: seq<DataSource>)

  class Database {
    var sites: seq<Site>
    var samples: seq<Sample>
    var ages: seq<AgeDetermination>
    var dataSources: seq<DataSource>
    var batches: seq<ImportBatch>
    /** The rows `(id, code)` of the `dating_method` reference table. */
    var datingMethods: seq<(int, string)>
    /** The rows `(id, code)` of the `sample_material` reference table. */
    var sampleMaterials: seq<(int, string)>

    /** A database holding only its reference tables. */
    constructor(datingMethods: seq<(int, string)>, sampleMaterials: seq<(int, string)>)
      ensures this.datingMethods == datingMethods && this.sampleMaterials == sampleMaterials
      ensures sites == [] && samples == [] && ages == [] && dataSources == [] && batches == []
    {
      this.datingMethods := datingMethods;
      this.sampleMaterials := sampleMaterials;
      sites, samples, ages, dataSources, batches := [], [], [], [], [];
    }

    function Snapshot(): Tables
      reads this
    {
      Tables(sites, samples, ages, dataSources)
    }
  }

  // ---------------------------------------------------------------------------
  // Reference data
  // ---------------------------------------------------------------------------

  /** `{row[1]: row[0] for row in rows}`: code to id, a later row overriding an earlier one. */
  function CodeIndex(rows: seq<(int, string)>): (m: map<string, int>)
    ensures forall code :: code in m <==> exists i :: 0 <= i < |rows| && rows[i].1 == code
  {
    if rows == [] then map[]
    else
      var last := rows[|rows| - 1];
      var m := CodeIndex(rows[..|rows| - 1]);
      assert forall i :: 0 <= i < |rows| - 1 ==> rows[..|rows| - 1][i] == rows[i];
      m[last.1 := last.0]
  }

  /** The id a code maps to comes from the last row carrying that code. */
  lemma {:induction false} CodeIndexLast(rows: seq<(int, string)>, i: nat)
    requires i < |rows| && forall j :: i < j < |rows| ==> rows[j].1 != rows[i].1
    ensures rows[i].1 in CodeIndex(rows) && CodeIndex(rows)[rows[i].1] == rows[i].0
  {
    if i < |rows| - 1 {
      var init := rows[..|rows| - 1];
      assert init[i] == rows[i];
      forall j | i < j < |init| ensures init[j].1 != init[i].1 {
        assert init[j] == rows[j];
      }
      CodeIndexLast(init, i);
    }
  }

  /** `dict.get(code)` */
  function LookupId(index: map<string, int>, code: string): (r: Option<int>)
    ensures r.Some? <==> code in index
    ensures r.Some? ==> r.value == index[code]
  {
    if code in index then Some(index[code]) else None
  }

  // ---------------------------------------------------------------------------
  // Data sources
  // ---------------------------------------------------------------------------

  /** The id of the first `data_source` row with this citation (`SELECT id ... WHERE citation = %s`). */
  function FindSource(rows: seq<DataSource>, citation: string): (r: Option<nat>)
    ensures r.Some? ==> 1 <= r.value <= |rows| && rows[r.value - 1].citation == citation
    ensures r.Some? ==> forall j :: 0 <= j < r.value - 1 ==> rows[j].citation != citation
    ensures r.None? <==> forall j :: 0 <= j < |rows| ==> rows[j].citation != citation
  {
    if rows == [] then None
    else if rows[0].citation == citation then Some(1)
    else
      var r := FindSource(rows[1..], citation);
      assert forall j :: 1 <= j < |rows| ==> rows[j] == rows[1..][j - 1];
      if r.Some? then Some(r.value + 1) else None
  }

  /** Every cached citation maps to the id of a `data_source` row with that citation. */
  predicate SourcesValid(sources: map<string, nat>, rows: seq<DataSource>) {
    forall c :: c in sources ==> 1 <= sources[c] <= |rows| && rows[sources[c] - 1].citation == c
  }

  /** No two `data_source` rows have the same citation. */
  predicate CitationsUnique(rows: seq<DataSource>) {
    forall i, j :: 0 <= i < j < |rows| ==> rows[i].citation != rows[j].citation
  }

  /** The `data_source` row inserted for a citation: its own text, with author and year parsed from it. */
  function NewSource(citation: string): DataSource {
    DataSource(citation)
  }

  /** The effect of `get_or_create_source`: the new cache, the new `data_source` rows and the id returned. */
  datatype SourceResult = SourceResult(sources: map<string, nat>, rows: seq<DataSource>, id: Option<nat>)

  /**
   * `get_or_create_source`. The insert conflicts exactly when a row with the
   * same citation exists; the select that follows then finds that row.
   */
  function SourceStep(sources: map<string, nat>, rows: seq<DataSource>, citation: string): (r: SourceResult)
    ensures citation == [] ==> r == SourceResult(sources, rows, None)
    ensures citation != [] && citation in sources ==> r == SourceResult(sources, rows, Some(sources[citation]))
  {
    if citation == [] then SourceResult(sources, rows, None)
    else if citation in sources then SourceResult(sources, rows, Some(sources[citation]))
    else
      match FindSource(rows, citation)
      case None =>
        var id := |rows| + 1;
        SourceResult(sources[citation := id], rows + [NewSource(citation)], Some(id))
      case Some(id) => SourceResult(sources[citation := id], rows, Some(id))
  }

  /** The step for a citation no row holds yet: a row is appended and its id cached. */
  lemma SourceStepNew(sources: map<string, nat>, rows: seq<DataSource>, citation: string)
    requires citation != [] && citation !in sources && FindSource(rows, citation).None?
    ensures SourceStep(sources, rows, citation)
      == SourceResult(sources[citation := |rows| + 1], rows + [NewSource(citation)], Some(|rows| + 1))
  {
  }

  /** The step for a citation some row already holds: that row's id is cached. */
  lemma SourceStepFound(sources: map<string, nat>, rows: seq<DataSource>, citation: string)
    requires citation != [] && citation !in sources && FindSource(rows, citation).Some?
    ensures SourceStep(sources, rows, citation)
      == SourceResult(sources[citation := FindSource(rows, citation).value], rows, FindSource(rows, citation))
  {
  }

  /** Every cached id still names a row with its citation. */
  lemma SourceStepValid(sources: map<string, nat>, rows: seq<DataSource>, citation: string)
    requires SourcesValid(sources, rows)
    ensures var r := SourceStep(sources, rows, citation); SourcesValid(r.sources, r.rows)
  {
    if citation != [] && citation !in sources {
      var f := FindSource(rows, citation);
      if f.None? {
        SourceStepNew(sources, rows, citation);
        SourcesValidAppend(sources, rows, NewSource(citation));
      } else {
        SourceStepFound(sources, rows, citation);
        SourcesValidCache(sources, rows, citation, f.value);
      }
    }
  }

  /** Appending a row and caching its id keeps the cache valid. */
  lemma SourcesValidAppend(sources: map<string, nat>, rows: seq<DataSource>, d: DataSource)
    requires SourcesValid(sources, rows)
    ensures SourcesValid(sources[d.citation := |rows| + 1], rows + [d])
  {
    var s', rows' := sources[d.citation := |rows| + 1], rows + [d];
    forall c | c in s' ensures 1 <= s'[c] <= |rows'| && rows'[s'[c] - 1].citation == c {
      if c != d.citation {
        assert rows'[sources[c] - 1] == rows[sources[c] - 1];
      }
    }
  }

  /** Caching the id of a row that holds the citation keeps the cache valid. */
  lemma SourcesValidCache(sources: map<string, nat>, rows: seq<DataSource>, citation: string, id: nat)
    requires SourcesValid(sources, rows) && 1 <= id <= |rows| && rows[id - 1].citation == citation
    ensures SourcesValid(sources[citation := id], rows)
  {
  }

  /** A non-empty citation always gets an id, the cache maps the citation to it, and its row holds that citation. */
  lemma SourceStepId(sources: map<string, nat>, rows: seq<DataSource>, citation: string)
    requires SourcesValid(sources, rows) && citation != []
    ensures var r := SourceStep(sources, rows, citation);
      r.id.Some? && citation in r.sources && r.sources[citation] == r.id.value
      && 1 <= r.id.value <= |r.rows| && r.rows[r.id.value - 1].citation == citation
  {
  }

  /** At most one row is appended, and only for a citation no row holds yet; so citations stay unique. */
  lemma SourceStepRows(sources: map<string, nat>, rows: seq<DataSource>, citation: string)
    ensures var r := SourceStep(sources, rows, citation);
      r.rows == rows
      || (|r.rows| == |rows| + 1 && r.rows[..|rows|] == rows && r.rows[|rows|].citation == citation
          && forall j :: 0 <= j < |rows| ==> rows[j].citation != citation)
    ensures var r := SourceStep(sources, rows, citation);
      CitationsUnique(rows) ==> CitationsUnique(r.rows)
  {
    var r := SourceStep(sources, rows, citation);
    if r.rows != rows {
      assert r.rows[..|rows|] == rows;
    }
  }

  /** Entries already in the cache are kept. */
  lemma SourceStepKeeps(sources: map<string, nat>, rows: seq<DataSource>, citation: string, c: string)
    requires c in sources
    ensures var r := SourceStep(sources, rows, citation); c in r.sources && r.sources[c] == sources[c]
  {
  }

  /** Asking again for a citation that was answered returns the same id and changes nothing. */
  lemma SourceStepRepeat(sources: map<string, nat>, rows: seq<DataSource>, citation: string)
    requires citation != []
    ensures var r := SourceStep(sources, rows, citation);
      SourceStep(r.sources, r.rows, citation) == r
  {
  }

  class ReferenceDataCache {
    const db: Database
    var methods: map<string, int>
    var materials: map<string, int>
    var sources: map<string, nat>

    /** The cache agrees with the `data_source` table. */
    predicate Valid()
      reads this, db
    {
      SourcesValid(sources, db.dataSources)
    }

    /** `__init__` with `_load_reference_data`. */
    constructor(db: Database)
      ensures this.db == db && sources == map[]
      ensures methods == CodeIndex(db.datingMethods) && materials == CodeIndex(db.sampleMaterials)
      ensures Valid()
    {
      this.db := db;
      methods := CodeIndex(db.datingMethods);
      materials := CodeIndex(db.sampleMaterials);
      sources := map[];
    }

    /** `get_method_id` */
    function GetMethodId(code: string): (r: Option<int>)
      reads this
      ensures r.Some? <==> code in methods
      ensures r.Some? ==> r.value == methods[code]
    {
      LookupId(methods, code)
    }

    /** `get_material_id` */
    function GetMaterialId(code: string): (r: Option<int>)
      reads this
      ensures r.Some? <==> code in materials
      ensures r.Some? ==> r.value == materials[code]
    {
      LookupId(materials, code)
    }

    /** `get_or_create_source` */
    method GetOrCreateSource(citation: string) returns (r: Option<nat>)
      requires Valid()
      modifies this`sources, db`dataSources
      ensures Valid()
      ensures SourceResult(sources, db.dataSources, r) == SourceStep(old(sources), old(db.dataSources), citation)
    {
      ghost var sources0, rows0 := sources, db.dataSources;
      SourceStepValid(sources0, rows0, citation);
      if citation == [] {
        return None;
      }
      if citation in sources {
        return Some(sources[citation]);
      }
      // INSERT .. ON CONFLICT DO NOTHING RETURNING id: a row comes back only when none holds the citation.
      if FindSource(db.dataSources, citation).None? {
        SourceStepNew(sources0, rows0, citation);
        db.dataSources := db.dataSources + [NewSource(citation)];
        var id := |db.dataSources|;
        sources := sources[citation := id];
        return Some(id);
      }
      // Otherwise the SELECT finds the existing row.
      var found := FindSource(db.dataSources, citation);
      if found.Some? {
        SourceStepFound(sources0, rows0, citation);
        sources := sources[citation := found.value];
        return found;
      }
      return None;
    }
  }

  // ---------------------------------------------------------------------------
  // Counters
  // ---------------------------------------------------------------------------

  /** The values of the `IngestStats` fields. */
  datatype Counts = Counts(
    sitesCreated: nat,
    sitesMatched: nat,
    samplesCreated: nat,
    agesCreated: nat,
    agesSkipped: nat,
    errors: seq<IngestError>)

  const NoCounts: Counts := Counts(0, 0, 0, 0, 0, [])

  /** The aggregation of run_ingestion, ingest.py:752-757: counters added, errors concatenated. */
  function AddCounts(total: Counts, c: Counts): (r: Counts)
    ensures r.sitesCreated == total.sitesCreated + c.sitesCreated
    ensures r.sitesMatched == total.sitesMatched + c.sitesMatched
    ensures r.samplesCreated == total.samplesCreated + c.samplesCreated
    ensures r.agesCreated == total.agesCreated + c.agesCreated
    ensures r.agesSkipped == total.agesSkipped + c.agesSkipped
    ensures r.errors == total.errors + c.errors
  {
    Counts(total.sitesCreated + c.sitesCreated, total.sitesMatched + c.sitesMatched,
      total.samplesCreated + c.samplesCreated, total.agesCreated + c.agesCreated,
      total.agesSkipped + c.agesSkipped, total.errors + c.errors)
  }

  class IngestStats {
    var sitesCreated: nat
    var sitesMatched: nat
    var samplesCreated: nat
    var agesCreated: nat
    var agesSkipped: nat
    var errors: seq<IngestError>

    constructor()
      ensures Snapshot() == NoCounts
    {
      sitesCreated, sitesMatched, samplesCreated, agesCreated, agesSkipped := 0, 0, 0, 0, 0;
      errors := [];
    }

    function Snapshot(): Counts
      reads this
    {
      Counts(sitesCreated, sitesMatched, samplesCreated, agesCreated, agesSkipped, errors)
    }

    /** Adds the counters of one file to the run totals (ingest.py:752-757). */
    method Add(other: IngestStats)
      modifies this
      ensures Snapshot() == AddCounts(old(Snapshot()), old(other.Snapshot()))
    {
      var o := other.Snapshot();
      sitesCreated := sitesCreated + o.sitesCreated;
      sitesMatched := sitesMatched + o.sitesMatched;
      samplesCreated := samplesCreated + o.samplesCreated;
      agesCreated := agesCreated + o.agesCreated;
      agesSkipped := agesSkipped + o.agesSkipped;
      errors := errors + o.errors;
    }
  }
}
