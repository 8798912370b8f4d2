/**
  The per-parser-class cache of static analysis results (src/parse/cache.ts).

  The source keeps one module-level hash table per kind of result, keyed by the
  parser's class name; most of them hold a nested table keyed by rule name. Here
  the tables are the fields of one object, and the stored results the toolkit
  computes elsewhere are type parameters: `E` a definition error, `R` a grammar
  rule, `T` a token type of a resynchronisation follow set, `F` a lookahead
  function, `A` a first-after-repetition record.
*/
module Cache {
  import opened Cst

  /** `MAX_OCCURRENCE_INDEX`: the largest occurrence index of a DSL method. */
  const MAX_OCCURRENCE_INDEX: nat := 5

  // ===========================================================================
  // Get-or-create on one nested table

  /** The nested table a lookup of `className` hands back: the stored one, or a
      new empty one on a miss. */
  function Lookup<V>(table: map<string, map<string, V>>, className: string): (r: map<string, V>)
    ensures className in table ==> r == table[className]
    ensures className !in table ==> |r| == 0
  {
    if className in table then table[className] else map[]
  }

  /** The outer table after a lookup of `className`: unchanged on a hit, and on a
      miss extended by an empty nested table under `className` alone. */
  function Ensured<V>(table: map<string, map<string, V>>, className: string): (r: map<string, map<string, V>>)
    ensures className in r && r[className] == Lookup(table, className)
    ensures r.Keys == table.Keys + {className}
    ensures forall k | k in table :: r[k] == table[k]
  {
    if className in table then table else table[className := map[]]
  }

  /** `getFromNestedHashTable`: returns the nested table stored under
      `className`, first storing a new empty one when there is none. */
  method GetFromNestedHashTable<V>(className: string, hashTable: map<string, map<string, V>>)
    returns (result: map<string, V>, updated: map<string, map<string, V>>)
    ensures result == Lookup(hashTable, className)
    ensures updated == Ensured(hashTable, className)
  {
    updated := hashTable;
    if className !in updated {
      updated := updated[className := map[]];
    }
    result := updated[className];
  }

  /** A hit changes nothing. */
  lemma HitChangesNothing<V>(table: map<string, map<string, V>>, className: string)
    requires className in table
    ensures Ensured(table, className) == table
  {
  }

  /** A second lookup of the same class returns the same nested table and changes
      nothing more. */
  lemma LookupIdempotent<V>(table: map<string, map<string, V>>, className: string)
    ensures Lookup(Ensured(table, className), className) == Lookup(table, className)
    ensures Ensured(Ensured(table, className), className) == Ensured(table, className)
  {
  }

  /** Lookups of two classes give the same outer table in either order. */
  lemma LookupsCommute<V>(table: map<string, map<string, V>>, a: string, b: string)
    ensures Ensured(Ensured(table, a), b) == Ensured(Ensured(table, b), a)
  {
    if a in table {
      HitChangesNothing(Ensured(table, b), a);
    } else if b in table {
      HitChangesNothing(Ensured(table, a), b);
    } else if a != b {
      var empty: map<string, V> := map[];
      assert table[a := empty][b := empty] == table[b := empty][a := empty];
    }
  }

  /** What a lookup after `setResyncFollowsForClass` sees: exactly the stored
      follow sets, and the table is not extended again. */
  lemma SetThenLookup<V>(table: map<string, map<string, V>>, className: string, value: map<string, V>)
    ensures Lookup(table[className := value], className) == value
    ensures Ensured(table[className := value], className) == table[className := value]
  {
  }

  /** After the cache is cleared, every lookup hands back a new empty table. */
  lemma LookupAfterClear<V>(className: string)
    ensures Lookup<V>(map[], className) == map[]
    ensures Ensured<V>(map[], className) == map[className := map[]]
  {
  }

  // ===========================================================================
  // The cache tables

  /** The module's tables, keyed by parser class name. */
  class AnalysisCache<E, R, T, F, A> {
    var classToDefinitionErrors: map<string, seq<E>>
    var classToSelfAnalysisDone: map<string, bool>
    var classToGrammarProductions: map<string, map<string, R>>
    var classToResyncFollowSets: map<string, map<string, seq<T>>>
    var classToLookaheadFuncs: map<string, map<string, F>>
    var classToFirstAfterRepetition: map<string, map<string, A>>
    var classToProductionOverriden: map<string, map<string, bool>>
    var classToIsCollectionPerRule: map<string, map<string, map<string, CstSubtype>>>

    /** Every table holds no entry. */
    predicate Empty()
      reads this
    {
      classToDefinitionErrors == map[] && classToSelfAnalysisDone == map[] &&
      classToGrammarProductions == map[] && classToResyncFollowSets == map[] &&
      classToLookaheadFuncs == map[] && classToFirstAfterRepetition == map[] &&
      classToProductionOverriden == map[] && classToIsCollectionPerRule == map[]
    }

    /** The tables as the module creates them. */
    constructor ()
      ensures Empty()
    {
      classToDefinitionErrors := map[];
      classToSelfAnalysisDone := map[];
      classToGrammarProductions := map[];
      classToResyncFollowSets := map[];
      classToLookaheadFuncs := map[];
      classToFirstAfterRepetition := map[];
      classToProductionOverriden := map[];
      classToIsCollectionPerRule := map[];
    }

    /** `getProductionsForClass`. */
    method GetProductionsForClass(className: string) returns (result: map<string, R>)
      modifies this`classToGrammarProductions
      ensures result == Lookup(old(classToGrammarProductions), className)
      ensures classToGrammarProductions == Ensured(old(classToGrammarProductions), className)
    {
      result, classToGrammarProductions := GetFromNestedHashTable(className, classToGrammarProductions);
    }

    /** `getResyncFollowsForClass`. */
    method GetResyncFollowsForClass(className: string) returns (result: map<string, seq<T>>)
      modifies this`classToResyncFollowSets
      ensures result == Lookup(old(classToResyncFollowSets), className)
      ensures classToResyncFollowSets == Ensured(old(classToResyncFollowSets), className)
    {
      result, classToResyncFollowSets := GetFromNestedHashTable(className, classToResyncFollowSets);
    }

    /** `setResyncFollowsForClass`: replaces the follow sets stored for
        `className`. */
    method SetResyncFollowsForClass(className: string, followSet: map<string, seq<T>>)
      modifies this`classToResyncFollowSets
      ensures classToResyncFollowSets == old(classToResyncFollowSets)[className := followSet]
    {
      classToResyncFollowSets := classToResyncFollowSets[className := followSet];
    }

    /** `getLookaheadFuncsForClass`. */
    method GetLookaheadFuncsForClass(className: string) returns (result: map<string, F>)
      modifies this`classToLookaheadFuncs
      ensures result == Lookup(old(classToLookaheadFuncs), className)
      ensures classToLookaheadFuncs == Ensured(old(classToLookaheadFuncs), className)
    {
      result, classToLookaheadFuncs := GetFromNestedHashTable(className, classToLookaheadFuncs);
    }

    /** `getFirstAfterRepForClass`. */
    method GetFirstAfterRepForClass(className: string) returns (result: map<string, A>)
      modifies this`classToFirstAfterRepetition
      ensures result == Lookup(old(classToFirstAfterRepetition), className)
      ensures classToFirstAfterRepetition == Ensured(old(classToFirstAfterRepetition), className)
    {
      result, classToFirstAfterRepetition := GetFromNestedHashTable(className, classToFirstAfterRepetition);
    }

    /** `getProductionOverriddenForClass`. */
    method GetProductionOverriddenForClass(className: string) returns (result: map<string, bool>)
      modifies this`classToProductionOverriden
      ensures result == Lookup(old(classToProductionOverriden), className)
      ensures classToProductionOverriden == Ensured(old(classToProductionOverriden), className)
    {
      result, classToProductionOverriden := GetFromNestedHashTable(className, classToProductionOverriden);
    }

    /** `getIsCollectionPerRuleForClass`. */
    method GetIsCollectionPerRuleForClass(className: string) returns (result: map<string, map<string, CstSubtype>>)
      modifies this`classToIsCollectionPerRule
      ensures result == Lookup(old(classToIsCollectionPerRule), className)
      ensures classToIsCollectionPerRule == Ensured(old(classToIsCollectionPerRule), className)
    {
      result, classToIsCollectionPerRule := GetFromNestedHashTable(className, classToIsCollectionPerRule);
    }

    /** `clearCache`: empties every table of the module. */
    method ClearCache()
      modifies this
      ensures Empty()
    {
      classToDefinitionErrors := map[];
      classToSelfAnalysisDone := map[];
      classToGrammarProductions := map[];
      classToResyncFollowSets := map[];
      classToLookaheadFuncs := map[];
      classToFirstAfterRepetition := map[];
      classToProductionOverriden := map[];
      classToIsCollectionPerRule := map[];
    }
  }
}
