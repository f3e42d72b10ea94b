/**
 * The identity symbols that both flavour headers define by default and that
 * generated simulation code and build tooling read.
 */
module McCode {
  const McCodeString := "MCCODE_STRING"                // product name
  const McCodeDate := "MCCODE_DATE"                    // release date
  const McCodeVersion := "MCCODE_VERSION"              // release version
  const McCodeName := "MCCODE_NAME"                    // upper-case product name
  const McCodeParticle := "MCCODE_PARTICLE"            // simulated particle
  const McCodeParticleCode := "MCCODE_PARTICLE_CODE"   // numeric particle code
  const McCodeLibEnv := "MCCODE_LIBENV"                // environment variable naming the library path
  const FlavorUpper := "FLAVOR_UPPER"                  // symbol prefix, defaults to MCCODE_NAME
  const McCodeProject := "MCCODE_PROJECT"              // project-build flag
  const FlavorLib := "FLAVOR_LIB"                      // support-library tag

  /** The ten symbols, in the order both headers define them. */
  const Symbols: seq<string> := [McCodeString, McCodeDate, McCodeVersion, McCodeName,
    McCodeParticle, McCodeParticleCode, McCodeLibEnv, FlavorUpper, McCodeProject, FlavorLib]

  /** No symbol is listed twice. */
  lemma SymbolsDistinct()
    ensures forall i, j :: 0 <= i < j < |Symbols| ==> Symbols[i] != Symbols[j]
  {
  }
}
