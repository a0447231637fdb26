/** The settings the coordinator's decision logic reads (app/config.py). */
module Settings {

  datatype Config = Config(
    enableMainServerPublish: bool,
    minFruitWeight: real,
    significantDelta: real,
    weightNoiseEpsilon: real,
    stableWindowMs: int,
    minScanIntervalMs: int,
    confidenceGuard: real,
    minBboxAreaRatio: real,
    expectedWeightPerFruit: real,
    classThresholds: map<string, real>)

  /** The bounds the settings loader enforces on the detector settings. */
  predicate ValidConfig(c: Config)
  {
    && 0.0 <= c.confidenceGuard <= 1.0
    && 0.0 <= c.minBboxAreaRatio <= 1.0
    && c.expectedWeightPerFruit > 0.0
  }

  /** The defaults in effect when no environment variable overrides them. */
  function DefaultConfig(): (c: Config)
    ensures ValidConfig(c)
  {
    Config(
      enableMainServerPublish := false,
      minFruitWeight := 30.0,
      significantDelta := 20.0,
      weightNoiseEpsilon := 5.0,
      stableWindowMs := 400,
      minScanIntervalMs := 2000,
      confidenceGuard := 0.30,
      minBboxAreaRatio := 0.001,
      expectedWeightPerFruit := 100.0,
      classThresholds := map["apple" := 0.55, "banana" := 0.40, "tomato" := 0.60])
  }
}
