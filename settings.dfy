/**
 * Ingestion settings (`Config`, ingest.py:42-64) and the coordinate check
 * `validate_coordinates` (ingest.py:327-330). Connection settings and the
 * data directory are not part of this model.
 */
module Settings {

  /** The processing options and the Australian coordinate bounds of `Config`. */
  datatype Config = Config(
    batchSize: nat,
    skipExisting: bool,
    validateCoordinates: bool,
    latMin: real,
    latMax: real,
    lonMin: real,
    lonMax: real)

  /** The defaults of `Config`, ingest.py:56-64. */
  const DefaultConfig: Config := Config(500, true, true, -43.7, -10.0, 112.0, 154.0)

  /** `validate_coordinates`: both coordinates within the configured closed intervals. */
  function ValidateCoordinates(lat: real, lon: real, config: Config): bool {
    config.latMin <= lat <= config.latMax && config.lonMin <= lon <= config.lonMax
  }

  /** The bounds themselves are accepted: every corner of the box passes. */
  lemma ValidateCoordinatesCorners(config: Config)
    requires config.latMin <= config.latMax && config.lonMin <= config.lonMax
    ensures ValidateCoordinates(config.latMin, config.lonMin, config)
    ensures ValidateCoordinates(config.latMax, config.lonMax, config)
    ensures ValidateCoordinates(config.latMin, config.lonMax, config)
    ensures ValidateCoordinates(config.latMax, config.lonMin, config)
  {
  }

  /** Under the default bounds a point in western New South Wales passes, one in New Zealand does not. */
  lemma DefaultBounds()
    ensures ValidateCoordinates(-33.7, 143.1, DefaultConfig)
    ensures !ValidateCoordinates(-36.85, 174.76, DefaultConfig)
    ensures !ValidateCoordinates(-10.0, 112.0 - 0.001, DefaultConfig)
  {
  }
}
