# McCode flavour identity headers

The McCode runtime ships two small C headers that give a translation unit its
flavour identity. `runtime/libc/mcstas-d.h` describes the neutron flavour
(McStas) and `runtime/libc/mcxtrace-d.h` the x-ray flavour (McXtrace). Each
header is wrapped in an include guard (`MCSTAS_D_H`, `MCXTRACE_D_H`) and holds ten
`#ifndef NAME` / `#define NAME value` / `#endif` blocks. A block supplies its
default only when nothing defined `NAME` before it, so a definition on the
compiler command line, or anywhere earlier in the unit, always wins. The ten
symbols are `MCCODE_STRING`, `MCCODE_DATE`, `MCCODE_VERSION`, `MCCODE_NAME`,
`MCCODE_PARTICLE`, `MCCODE_PARTICLE_CODE`, `MCCODE_LIBENV`, `FLAVOR_UPPER`,
`MCCODE_PROJECT` and `FLAVOR_LIB`. `FLAVOR_UPPER` is defined by default to the
identifier `MCCODE_NAME`, not to a literal.

The model:

- `preprocessor.dfy`, module `Preprocessor`: the symbol table, a
  `map<string, Value>`, where a value is empty, a string literal, an integer
  literal or the name of another macro. It also holds the effect of one
  default block (`DefineIfAbsent`) and of a list of them in source order
  (`ApplyDefaults`). `FirstWins` is a reference table that gives each name the
  value of its first block. `Resolve` expands a macro by one step, following a
  reference to another macro. The class `SymbolTable` is a translation unit's
  table, which the headers change one directive at a time.
- `mccode.dfy`, module `McCode`: the ten symbol names, in header order.
- `mcxtrace_d.dfy` and `mcstas_d.dfy`, modules `McXtraceD` and `McStasD`: each
  header as a guard plus its list of default blocks (`Defaults`). Each also has
  the specification function `Included`, and the method `Include`, which runs
  the guard test and then the ten blocks as separate steps on a `SymbolTable`.
  `Include` is proved equal to `Included`, and the lemmas state what the header
  promises about `Included`.
- `both_flavors.dfy`, module `BothFlavors`: both headers in one unit.

The source writes the two flavours as separate, duplicated headers. The model
keeps them as two modules that share only the symbol names and the
preprocessor semantics.

Where the documentation and the headers differ, the model follows the headers:

- The flavours are documented as mutually exclusive in one unit. The headers
  do not enforce this. Including both is accepted, and the header included
  first sets every shared symbol (`BothFlavors`).
- The project flag `MCCODE_PROJECT` is the integer literal `1`, not a boolean.
- The headers define ten symbols. `FLAVOR_UPPER` is a reference to
  `MCCODE_NAME`, so it follows a caller's `MCCODE_NAME`. It does not follow
  `MCCODE_STRING`: `MCCODE_NAME` is an independent literal.
- The headers work by changing the unit's table step by step. They are not a
  pure construction, so the model has a method over a table object next to the
  function that specifies it.

## Model

| member | source | states |
|---|---|---|
| Preprocessor.DefineIfAbsent | runtime/libc/mcxtrace-d.h:4-6 | one `#ifndef`/`#define` block: afterwards the name is defined, every earlier entry keeps its value, and the block's value is used only if the name was absent |
| Preprocessor.SymbolTable.Define | runtime/libc/mcstas-d.h:2 | `#define name value` sets exactly that entry of the unit's table |
| Preprocessor.SymbolTable.DefineDefault | runtime/libc/mcstas-d.h:4-6 | the imperative step for one block leaves the table equal to `DefineIfAbsent` of the old table |
| Preprocessor.ApplyDefaultsIsUnion | runtime/libc/mcstas-d.h:4-42 | running the blocks in source order gives the caller's definitions laid over the table of first defaults: earlier definitions win and defaults fill the gaps |
| Preprocessor.ApplyDefaultsKeeps | runtime/libc/mcstas-d.h:4-42 | a name defined before the blocks keeps its value after them |
| Preprocessor.ApplyDefaultsKeys | runtime/libc/mcstas-d.h:4-42 | afterwards exactly the earlier names plus the blocks' names are defined |
| Preprocessor.ApplyDefaultsNoop | runtime/libc/mcstas-d.h:4-42 | when every block's name is already defined the blocks change nothing |
| Preprocessor.ApplyDefaultsOverride | runtime/libc/mcstas-d.h:4-42 | defining one name before the blocks changes the result at that name only |
| Preprocessor.IncludeGuardedAt | runtime/libc/mcstas-d.h:1-42 | for distinct block names not equal to the guard, each block's name ends up with the caller's value if present, else the block's default |
| McXtraceD.Include | runtime/libc/mcxtrace-d.h:1-44 | the guard test, the guard definition and the ten blocks, run one at a time, leave the table equal to `Included` of the old table |
| McXtraceD.DefaultTable | runtime/libc/mcxtrace-d.h:4-42 | the McXtrace defaults as one table: `"McXtrace"`, `"2023-07-22"`, `"4"`, `"MCXTRACE"`, `"x-ray"`, `22`, `"MCXTRACE"`, ref `MCCODE_NAME`, `1`, `"xlib"` |
| McXtraceD.IncludedIsUnion | runtime/libc/mcxtrace-d.h:1-44 | with the guard absent, the result is the caller's table laid over the guard and the default table |
| McXtraceD.DefaultsWellFormed | runtime/libc/mcxtrace-d.h:4-42 | the blocks define the ten symbols in order, once each, and never the guard |
| McXtraceD.IncludedOverridesWin | runtime/libc/mcxtrace-d.h:4-42 | each of the ten symbols keeps a prior definition, and takes its default exactly when it was absent |
| McXtraceD.IncludedDefaults | runtime/libc/mcxtrace-d.h:4-42 | with none of the ten symbols predefined, they take exactly the McXtrace defaults |
| McXtraceD.IncludedKeeps | runtime/libc/mcxtrace-d.h:1-44 | no existing definition is overwritten, whether or not the guard was set |
| McXtraceD.IncludedDefinesAll | runtime/libc/mcxtrace-d.h:1-42 | with the guard absent, the guard and all ten symbols are defined afterwards and no other name is added |
| McXtraceD.IncludedFrame | runtime/libc/mcxtrace-d.h:1-44 | every name other than the guard and the ten symbols keeps its entry or its absence |
| McXtraceD.IncludedIdempotent | runtime/libc/mcxtrace-d.h:1-44 | with the guard already defined the table is unchanged, so including twice equals including once |
| McXtraceD.FlavorUpperResolves | runtime/libc/mcxtrace-d.h:16-34 | an unset `FLAVOR_UPPER` expands to the caller's `MCCODE_NAME`, or else to `"MCXTRACE"` |
| McXtraceD.OverrideIsIndependent | runtime/libc/mcxtrace-d.h:4-42 | predefining any name other than the guard changes the result at that name and nowhere else |
| McXtraceD.ProductNameOverrideOnly | runtime/libc/mcxtrace-d.h:4-34 | overriding `MCCODE_STRING` alone leaves `MCCODE_NAME` and the expansion of `FLAVOR_UPPER` at `"MCXTRACE"` |
| McStasD.Include | runtime/libc/mcstas-d.h:1-44 | the guard test, the guard definition and the ten blocks, run one at a time, leave the table equal to `Included` of the old table |
| McStasD.DefaultTable | runtime/libc/mcstas-d.h:4-42 | the McStas defaults as one table: `"McStas"`, `"2023-07-22"`, `"4"`, `"MCSTAS"`, `"neutron"`, `2112`, `"MCSTAS"`, ref `MCCODE_NAME`, `1`, `"nlib"` |
| McStasD.IncludedIsUnion | runtime/libc/mcstas-d.h:1-44 | with the guard absent, the result is the caller's table laid over the guard and the default table |
| McStasD.DefaultsWellFormed | runtime/libc/mcstas-d.h:4-42 | the blocks define the ten symbols in order, once each, and never the guard |
| McStasD.IncludedOverridesWin | runtime/libc/mcstas-d.h:4-42 | each of the ten symbols keeps a prior definition, and takes its default exactly when it was absent |
| McStasD.IncludedDefaults | runtime/libc/mcstas-d.h:4-42 | with none of the ten symbols predefined, they take exactly the McStas defaults |
| McStasD.IncludedKeeps | runtime/libc/mcstas-d.h:1-44 | no existing definition is overwritten, whether or not the guard was set |
| McStasD.IncludedDefinesAll | runtime/libc/mcstas-d.h:1-42 | with the guard absent, the guard and all ten symbols are defined afterwards and no other name is added |
| McStasD.IncludedFrame | runtime/libc/mcstas-d.h:1-44 | every name other than the guard and the ten symbols keeps its entry or its absence |
| McStasD.IncludedIdempotent | runtime/libc/mcstas-d.h:1-44 | with the guard already defined the table is unchanged, so including twice equals including once |
| McStasD.FlavorUpperResolves | runtime/libc/mcstas-d.h:16-34 | an unset `FLAVOR_UPPER` expands to the caller's `MCCODE_NAME`, or else to `"MCSTAS"` |
| McStasD.OverrideIsIndependent | runtime/libc/mcstas-d.h:4-42 | predefining any name other than the guard changes the result at that name and nowhere else |
| McStasD.ProductNameOverrideOnly | runtime/libc/mcstas-d.h:4-34 | overriding `MCCODE_STRING` alone leaves `MCCODE_NAME` and the expansion of `FLAVOR_UPPER` at `"MCSTAS"` |
| BothFlavors.McStasAfterMcXtrace | runtime/libc/mcstas-d.h:1-42 | mcstas-d.h after mcxtrace-d.h adds only `MCSTAS_D_H`; all ten shared symbols keep their McXtrace values |
| BothFlavors.McXtraceAfterMcStas | runtime/libc/mcxtrace-d.h:1-42 | mcxtrace-d.h after mcstas-d.h adds only `MCXTRACE_D_H`; all ten shared symbols keep their McStas values |
| BothFlavors.DefaultsCompared | runtime/libc/mcstas-d.h:4-42 | with nothing predefined, the flavours differ on product name, upper name, particle, particle code, library variable and library tag, and agree on date, version, `FLAVOR_UPPER`'s reference and project flag; `FLAVOR_UPPER` expands to `"MCSTAS"` and `"MCXTRACE"` |
| BothFlavors.McXtraceThenMcStas | runtime/libc/mcstas-d.h:1-44 | a unit that runs both headers, x-ray first, ends with the x-ray table plus the McStas guard |

## Left out

- `make_registry_files.py` is not part of this model. It checks the file system and calls the external `pooch.make_registry`, and has no logic of its own to state.
- Textual preprocessing is not modelled: tokens, comments, `#undef`, diagnostics for conflicting redefinition, and the exact spelling of the replacement lists. A macro's value is its parsed replacement.
- `Resolve` follows a reference once. The headers need no more, because `MCCODE_NAME` is never a reference in them. A caller who defines `MCCODE_NAME` as another macro's name is not expanded further, as full rescanning would do.
- The values are not validated (date format, particle code), and the model adds no such check, because the headers perform none.
- Predefinitions (compiler flags, earlier text in the unit) appear only as the starting table passed to `SymbolTable`'s constructor or to `Included`.
