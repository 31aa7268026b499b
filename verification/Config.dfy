/** `MemoryConfig`, with what the memory assumes of its parameters. */
module Config {

  datatype MemoryConfig = MemoryConfig(
    signal: string,
    alpha: real, decay: real, show: real, hide: real,
    prior: real, floorFrac: real,
    tauMerge: real, tauFamily: real,
    baseAlpha: real, devK: real, madFloor: real, baseMinN: nat)

  ghost predicate ValidConfig(c: MemoryConfig) {
    && 0.0 <= c.prior <= c.alpha <= 1.0 && c.prior < c.show
    && 0.0 <= c.decay <= 1.0 && 0.0 <= c.floorFrac <= 1.0
    && 0.0 <= c.hide <= c.show
    && 0.0 < c.tauFamily <= c.tauMerge <= 1.0
    && 0.0 <= c.baseAlpha <= 1.0 && 0.0 <= c.devK && 0.0 <= c.madFloor
  }

  const DEFAULTS := MemoryConfig("psi_io", 0.4, 0.1, 0.6, 0.25, 0.2, 0.4, 0.85, 0.6, 0.05, 4.0, 0.01, 12)

  /** CPU and memory signals keep no structural backbone: no prior, no floor. */
  const TRANSIENT := DEFAULTS.(signal := "psi_cpu", prior := 0.0, floorFrac := 0.0)

  /** Both configurations meet the assumptions, and what one case absorbs stays closer together than a family. */
  lemma DefaultsAreValid()
    ensures ValidConfig(DEFAULTS) && ValidConfig(TRANSIENT)
    ensures 2.0 * DEFAULTS.tauMerge - 1.0 > DEFAULTS.tauFamily
  {
  }
}
