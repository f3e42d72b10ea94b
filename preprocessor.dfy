/**
 * The part of the C preprocessor that the McCode flavour headers rely on:
 * a symbol table of object-like macros, the `#ifndef NAME / #define NAME
 * VALUE / #endif` idiom that supplies a default only when no definition
 * exists yet, and the expansion of a macro whose replacement is the name
 * of another macro.
 */
module Preprocessor {

  /** The replacement list of an object-like macro, as far as the headers use it. */
  datatype Value =
    | Empty                  // `#define NAME` with nothing after the name
    | Str(text: string)      // a string literal, without its quotes
    | Int(n: int)            // an integer literal
    | Ref(target: string)    // a single identifier: the name of another macro

  /** The preprocessor's symbol table: macro name to replacement. */
  type Table = map<string, Value>

  datatype Option<T> = None | Some(value: T)

  /** One `#ifndef name` / `#define name value` / `#endif` block. */
  datatype Default = Default(name: string, value: Value)

  /** The names a list of default blocks may define. */
  function Names(ds: seq<Default>): set<string>
  {
    set i | 0 <= i < |ds| :: ds[i].name
  }

  /** No name has two default blocks. */
  predicate DistinctNames(ds: seq<Default>)
  {
    forall i, j :: 0 <= i < j < |ds| ==> ds[i].name != ds[j].name
  }

  /** The effect of one default block on the table: define `name` only if it is absent. */
  function DefineIfAbsent(t: Table, name: string, value: Value): (r: Table)
    ensures r.Keys == t.Keys + {name}
    ensures forall x :: x in t ==> x in r && r[x] == t[x]
    ensures name !in t ==> r[name] == value
  {
    if name in t then t else t[name := value]
  }

  /** Runs a list of default blocks in source order. */
  function ApplyDefaults(t: Table, ds: seq<Default>): Table
    decreases |ds|
  {
    if ds == [] then t
    else ApplyDefaults(DefineIfAbsent(t, ds[0].name, ds[0].value), ds[1..])
  }

  /**
   * Reference definition of the defaults a list of blocks supplies, as one
   * table: each name maps to the value of its FIRST block.
   */
  function FirstWins(ds: seq<Default>): Table
    decreases |ds|
  {
    if ds == [] then map[]
    else FirstWins(ds[1..])[ds[0].name := ds[0].value]
  }

  /**
   * A header with include guard `guard`: if the guard is defined the body is
   * skipped; otherwise the guard is defined (with an empty replacement) and the
   * default blocks run in order.
   */
  function IncludeGuarded(t: Table, guard: string, ds: seq<Default>): Table
  {
    if guard in t then t else ApplyDefaults(t[guard := Empty], ds)
  }

  /**
   * The value `name` expands to: its own replacement, or, when that is the
   * name of another macro, that macro's replacement (one step). A reference to
   * an undefined macro stays the bare identifier.
   */
  function Resolve(t: Table, name: string): Option<Value>
  {
    if name !in t then None
    else match t[name]
      case Ref(target) => if target in t then Some(t[target]) else Some(Ref(target))
      case v => Some(v)
  }

  lemma {:induction false} NamesCons(ds: seq<Default>)
    requires ds != []
    ensures Names(ds) == {ds[0].name} + Names(ds[1..])
  {
    forall x | x in Names(ds) ensures x in {ds[0].name} + Names(ds[1..]) {
      var i :| 0 <= i < |ds| && ds[i].name == x;
      if i > 0 {
        assert ds[1..][i - 1].name == x;
      }
    }
    forall x | x in Names(ds[1..]) ensures x in Names(ds) {
      var i :| 0 <= i < |ds[1..]| && ds[1..][i].name == x;
      assert ds[i + 1].name == x;
    }
  }

  /** The reference table defines exactly the names of the blocks. */
  lemma {:induction false} FirstWinsKeys(ds: seq<Default>)
    ensures FirstWins(ds).Keys == Names(ds)
  {
    if ds != [] {
      FirstWinsKeys(ds[1..]);
      NamesCons(ds);
    }
  }

  /**
   * Running the blocks in order is the same as laying the caller's table over
   * the reference table: whatever was defined before wins, the first default
   * of each missing name fills the gap, and no other name appears.
   */
  lemma {:induction false} ApplyDefaultsIsUnion(t: Table, ds: seq<Default>)
    ensures ApplyDefaults(t, ds) == FirstWins(ds) + t
    decreases |ds|
  {
    if ds != [] {
      var d := ds[0];
      var t' := DefineIfAbsent(t, d.name, d.value);
      ApplyDefaultsIsUnion(t', ds[1..]);
      assert FirstWins(ds[1..]) + t' == FirstWins(ds) + t;
    }
  }

  /** With distinct names, the reference table gives each block's name that block's value. */
  lemma {:induction false} FirstWinsAt(ds: seq<Default>, i: nat)
    requires DistinctNames(ds) && i < |ds|
    ensures ds[i].name in FirstWins(ds) && FirstWins(ds)[ds[i].name] == ds[i].value
  {
    if i > 0 {
      assert DistinctNames(ds[1..]) by {
        forall a, b | 0 <= a < b < |ds[1..]| ensures ds[1..][a].name != ds[1..][b].name {
          assert ds[1..][a] == ds[a + 1] && ds[1..][b] == ds[b + 1];
        }
      }
      FirstWinsAt(ds[1..], i - 1);
      assert ds[1..][i - 1] == ds[i];
    }
  }

  /**
   * Block by block, for a header whose blocks have distinct names and do not
   * name the guard: the block's name is defined afterwards, with the caller's
   * value if there was one and the block's default otherwise.
   */
  lemma IncludeGuardedAt(t: Table, guard: string, ds: seq<Default>, i: nat)
    requires guard !in t && DistinctNames(ds) && guard !in Names(ds) && i < |ds|
    ensures ds[i].name in IncludeGuarded(t, guard, ds)
    ensures IncludeGuarded(t, guard, ds)[ds[i].name] ==
      if ds[i].name in t then t[ds[i].name] else ds[i].value
  {
    ApplyDefaultsIsUnion(t[guard := Empty], ds);
    FirstWinsAt(ds, i);
    assert ds[i].name in Names(ds);
  }

  /** Keys defined before a list of blocks keep their values. */
  lemma ApplyDefaultsKeeps(t: Table, ds: seq<Default>, x: string)
    requires x in t
    ensures x in ApplyDefaults(t, ds) && ApplyDefaults(t, ds)[x] == t[x]
  {
    ApplyDefaultsIsUnion(t, ds);
  }

  /** After the blocks, every name they mention is defined and nothing else is added. */
  lemma ApplyDefaultsKeys(t: Table, ds: seq<Default>)
    ensures ApplyDefaults(t, ds).Keys == t.Keys + Names(ds)
  {
    ApplyDefaultsIsUnion(t, ds);
    FirstWinsKeys(ds);
  }

  /** Once every name is defined, the blocks do nothing. */
  lemma ApplyDefaultsNoop(t: Table, ds: seq<Default>)
    requires Names(ds) <= t.Keys
    ensures ApplyDefaults(t, ds) == t
  {
    ApplyDefaultsIsUnion(t, ds);
    FirstWinsKeys(ds);
  }

  /**
   * A definition supplied before the blocks is independent of every other
   * name: defining `x` first changes the outcome at `x` and nowhere else.
   */
  lemma ApplyDefaultsOverride(t: Table, ds: seq<Default>, x: string, v: Value)
    ensures ApplyDefaults(t[x := v], ds) == ApplyDefaults(t, ds)[x := v]
  {
    ApplyDefaultsIsUnion(t, ds);
    ApplyDefaultsIsUnion(t[x := v], ds);
  }

  /**
   * The symbol table of one translation unit. The headers change it step by
   * step, one directive at a time.
   */
  class SymbolTable {
    var macros: Table

    /** A unit whose compiler command line (or earlier text) defined `predefined`. */
    constructor (predefined: Table)
      ensures macros == predefined
    {
      macros := predefined;
    }

    /** `defined(name)`, the test behind `#ifndef`. */
    function IsDefined(name: string): bool
      reads this
    {
      name in macros
    }

    /** `#define name value`. */
    method Define(name: string, value: Value)
      modifies this
      ensures macros == old(macros)[name := value]
    {
      macros := macros[name := value];
    }

    /** `#ifndef name` / `#define name value` / `#endif`. */
    method DefineDefault(name: string, value: Value)
      modifies this
      ensures macros == DefineIfAbsent(old(macros), name, value)
    {
      if !IsDefined(name) {
        Define(name, value);
      }
    }
  }
}
