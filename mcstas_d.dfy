/**
 * runtime/libc/mcstas-d.h: the identity defaults of the neutron flavour
 * (McStas), each of which a definition made before the header wins over.
 */
module McStasD {
  import opened Preprocessor
  import opened McCode

  /** The include guard. */
  const Guard := "MCSTAS_D_H"

  /** The header's ten default blocks, in source order. */
  const Defaults: seq<Default> := [
    Default(McCodeString, Str("McStas")),
    Default(McCodeDate, Str("2023-07-22")),
    Default(McCodeVersion, Str("4")),
    Default(McCodeName, Str("MCSTAS")),
    Default(McCodeParticle, Str("neutron")),
    Default(McCodeParticleCode, Int(2112)),
    Default(McCodeLibEnv, Str("MCSTAS")),
    Default(FlavorUpper, Ref(McCodeName)),
    Default(McCodeProject, Int(1)),
    Default(FlavorLib, Str("nlib"))
  ]

  /** The symbol table after `#include "mcstas-d.h"`. */
  function Included(t: Table): Table
  {
    IncludeGuarded(t, Guard, Defaults)
  }

  /** The header as the preprocessor runs it: the guard test, then one directive at a time. */
  method Include(st: SymbolTable)
    modifies st
    ensures st.macros == Included(old(st.macros))
  {
    if st.IsDefined(Guard) {
      return;
    }
    ghost var goal := Included(old(st.macros));
    st.Define(Guard, Empty);
    // `rest` holds the blocks still to run; running them yields `goal`.
    ghost var rest := Defaults;
    assert ApplyDefaults(st.macros, rest) == goal;
    st.DefineDefault(McCodeString, Str("McStas"));
    rest := rest[1..];  assert ApplyDefaults(st.macros, rest) == goal;
    st.DefineDefault(McCodeDate, Str("2023-07-22"));
    rest := rest[1..];  assert ApplyDefaults(st.macros, rest) == goal;
    st.DefineDefault(McCodeVersion, Str("4"));
    rest := rest[1..];  assert ApplyDefaults(st.macros, rest) == goal;
    st.DefineDefault(McCodeName, Str("MCSTAS"));
    rest := rest[1..];  assert ApplyDefaults(st.macros, rest) == goal;
    st.DefineDefault(McCodeParticle, Str("neutron"));
    rest := rest[1..];  assert ApplyDefaults(st.macros, rest) == goal;
    st.DefineDefault(McCodeParticleCode, Int(2112));
    rest := rest[1..];  assert ApplyDefaults(st.macros, rest) == goal;
    st.DefineDefault(McCodeLibEnv, Str("MCSTAS"));
    rest := rest[1..];  assert ApplyDefaults(st.macros, rest) == goal;
    st.DefineDefault(FlavorUpper, Ref(McCodeName));
    rest := rest[1..];  assert ApplyDefaults(st.macros, rest) == goal;
    st.DefineDefault(McCodeProject, Int(1));
    rest := rest[1..];  assert ApplyDefaults(st.macros, rest) == goal;
    st.DefineDefault(FlavorLib, Str("nlib"));
    rest := rest[1..];  assert ApplyDefaults(st.macros, rest) == goal;
  }

  /**
   * The defaults the header supplies, as one table. It is written from the
   * last block to the first: in a map display the later key wins, in the
   * header the earlier block does.
   */
  lemma DefaultTable()
    ensures FirstWins(Defaults) == map[
      FlavorLib := Str("nlib"),
      McCodeProject := Int(1),
      FlavorUpper := Ref(McCodeName),
      McCodeLibEnv := Str("MCSTAS"),
      McCodeParticleCode := Int(2112),
      McCodeParticle := Str("neutron"),
      McCodeName := Str("MCSTAS"),
      McCodeVersion := Str("4"),
      McCodeDate := Str("2023-07-22"),
      McCodeString := Str("McStas")]
  {
    assert Defaults[10..] == [];
    assert FirstWins(Defaults[9..]) == map[FlavorLib := Str("nlib")];
    assert FirstWins(Defaults[8..]) == FirstWins(Defaults[9..])[McCodeProject := Int(1)];
    assert FirstWins(Defaults[7..]) == FirstWins(Defaults[8..])[FlavorUpper := Ref(McCodeName)];
    assert FirstWins(Defaults[6..]) == FirstWins(Defaults[7..])[McCodeLibEnv := Str("MCSTAS")];
    assert FirstWins(Defaults[5..]) == FirstWins(Defaults[6..])[McCodeParticleCode := Int(2112)];
    assert FirstWins(Defaults[4..]) == FirstWins(Defaults[5..])[McCodeParticle := Str("neutron")];
    assert FirstWins(Defaults[3..]) == FirstWins(Defaults[4..])[McCodeName := Str("MCSTAS")];
    assert FirstWins(Defaults[2..]) == FirstWins(Defaults[3..])[McCodeVersion := Str("4")];
    assert FirstWins(Defaults[1..]) == FirstWins(Defaults[2..])[McCodeDate := Str("2023-07-22")];
    assert FirstWins(Defaults) == FirstWins(Defaults[1..])[McCodeString := Str("McStas")];
  }

  /**
   * The whole header in closed form: the caller's definitions laid over the
   * guard and the header's table, so a definition made before the include
   * always wins.
   */
  lemma IncludedIsUnion(t: Table)
    requires Guard !in t
    ensures Included(t) == FirstWins(Defaults)[Guard := Empty] + t
  {
    ApplyDefaultsIsUnion(t[Guard := Empty], Defaults);
  }

  /** The header's blocks define the ten symbols, in order, once each, and never the guard. */
  lemma DefaultsWellFormed()
    ensures |Defaults| == |Symbols|
    ensures forall i :: 0 <= i < |Defaults| ==> Defaults[i].name == Symbols[i]
    ensures Names(Defaults) == set s | s in Symbols
    ensures DistinctNames(Defaults) && Guard !in Names(Defaults)
  {
    SymbolsDistinct();
  }

  /**
   * Block by block: a symbol defined before the include keeps its value, and
   * the block's default is used exactly when the symbol was absent.
   */
  lemma IncludedOverridesWin(t: Table)
    requires Guard !in t
    ensures forall i :: 0 <= i < |Defaults| ==>
      Defaults[i].name in Included(t) &&
      Included(t)[Defaults[i].name] == if Defaults[i].name in t then t[Defaults[i].name] else Defaults[i].value
  {
    DefaultsWellFormed();
    forall i | 0 <= i < |Defaults|
      ensures Defaults[i].name in Included(t) &&
        Included(t)[Defaults[i].name] == if Defaults[i].name in t then t[Defaults[i].name] else Defaults[i].value
    {
      IncludeGuardedAt(t, Guard, Defaults, i);
    }
  }

  /** With none of the ten symbols defined beforehand, each takes the header's default. */
  lemma IncludedDefaults(t: Table)
    requires Guard !in t
    requires forall s :: s in Symbols ==> s !in t
    ensures McCodeString in Included(t) && Included(t)[McCodeString] == Str("McStas")
    ensures McCodeDate in Included(t) && Included(t)[McCodeDate] == Str("2023-07-22")
    ensures McCodeVersion in Included(t) && Included(t)[McCodeVersion] == Str("4")
    ensures McCodeName in Included(t) && Included(t)[McCodeName] == Str("MCSTAS")
    ensures McCodeParticle in Included(t) && Included(t)[McCodeParticle] == Str("neutron")
    ensures McCodeParticleCode in Included(t) && Included(t)[McCodeParticleCode] == Int(2112)
    ensures McCodeLibEnv in Included(t) && Included(t)[McCodeLibEnv] == Str("MCSTAS")
    ensures FlavorUpper in Included(t) && Included(t)[FlavorUpper] == Ref(McCodeName)
    ensures McCodeProject in Included(t) && Included(t)[McCodeProject] == Int(1)
    ensures FlavorLib in Included(t) && Included(t)[FlavorLib] == Str("nlib")
  {
    IncludedOverridesWin(t);
    assert Defaults[0].name == McCodeString && Defaults[1].name == McCodeDate;
    assert Defaults[2].name == McCodeVersion && Defaults[3].name == McCodeName;
    assert Defaults[4].name == McCodeParticle && Defaults[5].name == McCodeParticleCode;
    assert Defaults[6].name == McCodeLibEnv && Defaults[7].name == FlavorUpper;
    assert Defaults[8].name == McCodeProject && Defaults[9].name == FlavorLib;
  }

  /** No definition made before the include is overwritten, whether or not the guard was set. */
  lemma IncludedKeeps(t: Table, x: string)
    requires x in t
    ensures x in Included(t) && Included(t)[x] == t[x]
  {
    if Guard !in t {
      ApplyDefaultsKeeps(t[Guard := Empty], Defaults, x);
    }
  }

  /**
   * The include cannot fail: afterwards the guard and all ten symbols are
   * defined, and no other name has been added.
   */
  lemma IncludedDefinesAll(t: Table)
    requires Guard !in t
    ensures Included(t).Keys == t.Keys + {Guard} + (set s | s in Symbols)
  {
    IncludedIsUnion(t);
    DefaultTable();
  }

  /** Nothing else changes: every name other than the guard and the ten symbols keeps its entry or its absence. */
  lemma IncludedFrame(t: Table, x: string)
    requires x != Guard && x !in Symbols
    ensures x in Included(t) <==> x in t
    ensures x in t ==> Included(t)[x] == t[x]
  {
    if Guard !in t {
      ApplyDefaultsKeys(t[Guard := Empty], Defaults);
      if x in t {
        ApplyDefaultsKeeps(t[Guard := Empty], Defaults, x);
      }
      DefaultsWellFormed();
    }
  }

  /** A second include finds the guard defined and changes nothing. */
  lemma IncludedIdempotent(t: Table)
    ensures Guard in t ==> Included(t) == t
    ensures Included(Included(t)) == Included(t)
  {
    if Guard !in t {
      ApplyDefaultsKeeps(t[Guard := Empty], Defaults, Guard);
    }
  }

  /**
   * `FLAVOR_UPPER` names `MCCODE_NAME`, so when it was not defined beforehand it
   * expands to the effective `MCCODE_NAME`: the caller's, or the header's.
   */
  lemma FlavorUpperResolves(t: Table)
    requires Guard !in t && FlavorUpper !in t
    ensures Resolve(Included(t), FlavorUpper) ==
      Some(if McCodeName in t then t[McCodeName] else Str("MCSTAS"))
  {
    IncludedIsUnion(t);
    DefaultTable();
  }

  /**
   * Each symbol is resolved on its own: defining any name other than the guard
   * before the include changes the result at that name and nowhere else.
   */
  lemma OverrideIsIndependent(t: Table, x: string, v: Value)
    requires x != Guard
    ensures Included(t[x := v]) == Included(t)[x := v]
  {
    if Guard !in t {
      ApplyDefaultsOverride(t[Guard := Empty], Defaults, x, v);
      assert t[x := v][Guard := Empty] == t[Guard := Empty][x := v];
    }
  }

  /** In particular, overriding `MCCODE_STRING` alone leaves `MCCODE_NAME` and `FLAVOR_UPPER` at the flavour's defaults. */
  lemma ProductNameOverrideOnly(t: Table, v: Value)
    requires Guard !in t && McCodeName !in t && FlavorUpper !in t
    ensures McCodeString in Included(t[McCodeString := v]) && Included(t[McCodeString := v])[McCodeString] == v
    ensures McCodeName in Included(t[McCodeString := v]) && Included(t[McCodeString := v])[McCodeName] == Str("MCSTAS")
    ensures Resolve(Included(t[McCodeString := v]), FlavorUpper) == Some(Str("MCSTAS"))
  {
    IncludedIsUnion(t[McCodeString := v]);
    DefaultTable();
  }
}
