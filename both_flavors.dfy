/**
 * Both flavour headers included in one translation unit. Neither header
 * refuses the other: the one included first sets every shared symbol, and the
 * second only adds its own guard.
 */
module BothFlavors {
  import opened Preprocessor
  import opened McCode
  import McStasD
  import McXtraceD

  /** Including mcstas-d.h after mcxtrace-d.h adds only the McStas guard; every shared symbol keeps its McXtrace value. */
  lemma McStasAfterMcXtrace(t: Table)
    requires McXtraceD.Guard !in t && McStasD.Guard !in t
    ensures McStasD.Included(McXtraceD.Included(t)) == McXtraceD.Included(t)[McStasD.Guard := Empty]
  {
    var x := McXtraceD.Included(t);
    McXtraceD.IncludedDefinesAll(t);
    McXtraceD.IncludedFrame(t, McStasD.Guard);
    McStasD.DefaultsWellFormed();
    ApplyDefaultsNoop(x[McStasD.Guard := Empty], McStasD.Defaults);
  }

  /** Including mcxtrace-d.h after mcstas-d.h adds only the McXtrace guard; every shared symbol keeps its McStas value. */
  lemma McXtraceAfterMcStas(t: Table)
    requires McXtraceD.Guard !in t && McStasD.Guard !in t
    ensures McXtraceD.Included(McStasD.Included(t)) == McStasD.Included(t)[McXtraceD.Guard := Empty]
  {
    var n := McStasD.Included(t);
    McStasD.IncludedDefinesAll(t);
    McStasD.IncludedFrame(t, McXtraceD.Guard);
    McXtraceD.DefaultsWellFormed();
    ApplyDefaultsNoop(n[McXtraceD.Guard := Empty], McXtraceD.Defaults);
  }

  /**
   * With nothing defined beforehand, the two flavours disagree on the product
   * name, its upper-case form, the particle, its code, the library variable
   * and the library tag, and agree on the date, the version and the project
   * flag. `FLAVOR_UPPER` is the same reference in both but expands differently.
   */
  lemma DefaultsCompared()
    ensures forall s :: s in Symbols ==> s in McStasD.Included(map[]) && s in McXtraceD.Included(map[])
    ensures forall s :: s in Symbols ==>
      (McStasD.Included(map[])[s] == McXtraceD.Included(map[])[s] <==>
       s == McCodeDate || s == McCodeVersion || s == FlavorUpper || s == McCodeProject)
    ensures Resolve(McStasD.Included(map[]), FlavorUpper) == Some(Str("MCSTAS"))
    ensures Resolve(McXtraceD.Included(map[]), FlavorUpper) == Some(Str("MCXTRACE"))
  {
    McStasD.IncludedDefaults(map[]);
    McXtraceD.IncludedDefaults(map[]);
    McStasD.FlavorUpperResolves(map[]);
    McXtraceD.FlavorUpperResolves(map[]);
    SymbolsDistinct();
  }

  /** A unit that includes mcxtrace-d.h and then mcstas-d.h, as the preprocessor runs them. */
  method McXtraceThenMcStas(predefined: Table) returns (macros: Table)
    ensures macros == McStasD.Included(McXtraceD.Included(predefined))
    ensures McXtraceD.Guard !in predefined && McStasD.Guard !in predefined ==>
      macros == McXtraceD.Included(predefined)[McStasD.Guard := Empty]
  {
    var unit := new SymbolTable(predefined);
    McXtraceD.Include(unit);
    McStasD.Include(unit);
    macros := unit.macros;
    if McXtraceD.Guard !in predefined && McStasD.Guard !in predefined {
      McStasAfterMcXtrace(predefined);
    }
  }
}
