/** The harness's fixed constants and its table of dataset presets. */
module Config {

  /** ZIPF_SKEW: the exponent applied to the popularity draw (2.0, so u ** 2). */
  const ZipfSkew: nat := 2

  const DaySeconds: nat := 24 * 3600

  /** The generated window: 365 days ending at the moment the generator is built. */
  const WindowDays: nat := 365

  /** 365 * 24 * 3600: the span of transaction timestamps after the start epoch. */
  const YearSeconds: nat := WindowDays * DaySeconds

  /** 30 * 24 * 3600: the span of account creation times after the start epoch. */
  const CreationWindowSeconds: nat := 30 * DaySeconds

  /** Ids given to the write-test rows start here, above every generated id. */
  const WriteIdOffset: nat := 2_000_000_000

  /** `_run_batch` makes at most this many attempts. */
  const RetryBudget: nat := 3

  /** Seconds slept after every transient store failure. */
  const RetryBackoffSeconds: nat := 2

  /** Bytes per sector in /proc/diskstats. */
  const SectorBytes: nat := 512

  datatype Preset = Preset(accounts: nat, transactions: nat)

  /** DATASET_SIZES: the presets selectable on the command line. */
  const DatasetSizes: map<string, Preset> := map[
    "xs" := Preset(100_000, 1_000_000),
    "sm" := Preset(1_000_000, 10_000_000),
    "md" := Preset(5_000_000, 50_000_000),
    "lg" := Preset(10_000_000, 200_000_000),
    "full" := Preset(30_000_000, 1_200_000_000)
  ]
}
