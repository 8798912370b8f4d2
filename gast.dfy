/**
  The grammar AST ("gast") as the CST analysis sees it: a rule's definition is a
  sequence of productions. Token classes and rule references are identified by
  their names (the result of `tokenName` and `nonTerminalName` in the toolkit).
*/
module Gast {

  /** One production of a definition. `ExitIteration` and `ExitOption` stand for
      the two string sentinels that the CST analysis splices into the remaining
      definition of a path; a grammar written by a user never contains them. */
  datatype Production =
    | Terminal(terminalName: string)
    | NonTerminal(nonTerminalName: string)
    | Option(definition: seq<Production>)
    | Repetition(definition: seq<Production>)
    | RepetitionMandatory(definition: seq<Production>)
    | RepetitionWithSeparator(definition: seq<Production>, separator: string)
    | RepetitionMandatoryWithSeparator(definition: seq<Production>, separator: string)
    | Alternation(alternatives: seq<Flat>)
    | ExitIteration
    | ExitOption

  /** One alternative of an `Alternation`. */
  datatype Flat = Flat(definition: seq<Production>)

  /** A top-level grammar rule. */
  datatype Rule = Rule(name: string, definition: seq<Production>)

  /** Terminals and non-terminals: the productions that name a child of a CST node. */
  predicate IsItem(p: Production)
  {
    p.Terminal? || p.NonTerminal?
  }

  function ItemName(p: Production): string
    requires IsItem(p)
  {
    if p.Terminal? then p.terminalName else p.nonTerminalName
  }

  predicate IsNamed(p: Production, name: string)
  {
    IsItem(p) && ItemName(p) == name
  }

  predicate IsMarker(p: Production)
  {
    p.ExitIteration? || p.ExitOption?
  }

  predicate AllItems(d: seq<Production>)
  {
    forall i | 0 <= i < |d| :: IsItem(d[i])
  }

  /** Number of top-level items of `d` named `name`. */
  function CountNamed(d: seq<Production>, name: string): (r: nat)
    ensures r <= |d|
    ensures r == 0 <==> forall i | 0 <= i < |d| :: !IsNamed(d[i], name)
  {
    if d == [] then 0
    else (if IsNamed(d[0], name) then 1 else 0) + CountNamed(d[1..], name)
  }

  // ---------------------------------------------------------------------------
  // Names

  /** The names of all terminals and non-terminals at any depth of `d`, plus, when
      `withSeparators` holds, the separator token names of separated repetitions.
      Without separators this is what the init visitor records (a separator is not a
      production of its own, so the grammar walk does not visit it). */
  function Names(d: seq<Production>, withSeparators: bool): set<string>
  {
    if d == [] then {} else ProductionNames(d[0], withSeparators) + Names(d[1..], withSeparators)
  }

  function ProductionNames(p: Production, withSeparators: bool): set<string>
  {
    match p
    case Terminal(n) => {n}
    case NonTerminal(n) => {n}
    case Option(b) => Names(b, withSeparators)
    case Repetition(b) => Names(b, withSeparators)
    case RepetitionMandatory(b) => Names(b, withSeparators)
    case RepetitionWithSeparator(b, sep) =>
      Names(b, withSeparators) + (if withSeparators then {sep} else {})
    case RepetitionMandatoryWithSeparator(b, sep) =>
      Names(b, withSeparators) + (if withSeparators then {sep} else {})
    case Alternation(alts) => AlternativesNames(alts, withSeparators)
    case ExitIteration => {}
    case ExitOption => {}
  }

  function AlternativesNames(alts: seq<Flat>, withSeparators: bool): set<string>
  {
    if alts == [] then {}
    else Names(alts[0].definition, withSeparators) + AlternativesNames(alts[1..], withSeparators)
  }

  /** Names the init visitor records. */
  function VisitedNames(d: seq<Production>): set<string>
  {
    Names(d, false)
  }

  /** Every name the analysis can write: visited names and separators. */
  function MentionedNames(d: seq<Production>): set<string>
  {
    Names(d, true)
  }

  // ---------------------------------------------------------------------------
  // Well-formedness of user grammars

  /** `ok` holds of every production of `d`, at every depth. */
  predicate AllNodes(d: seq<Production>, ok: Production -> bool)
  {
    forall i | 0 <= i < |d| :: NodeAndBelow(d[i], ok)
  }

  predicate NodeAndBelow(p: Production, ok: Production -> bool)
  {
    ok(p) &&
    match p
    case Option(b) => AllNodes(b, ok)
    case Repetition(b) => AllNodes(b, ok)
    case RepetitionMandatory(b) => AllNodes(b, ok)
    case RepetitionWithSeparator(b, _) => AllNodes(b, ok)
    case RepetitionMandatoryWithSeparator(b, _) => AllNodes(b, ok)
    case Alternation(alts) => forall j | 0 <= j < |alts| :: AllNodes(alts[j].definition, ok)
    case _ => true
  }

  predicate NotMarker(p: Production)
  {
    !IsMarker(p)
  }

  predicate NotEmptyAlternation(p: Production)
  {
    p.Alternation? ==> p.alternatives != []
  }

  /** A definition as a user writes it: no sentinel anywhere. */
  predicate Plain(d: seq<Production>)
  {
    AllNodes(d, NotMarker)
  }

  /** Every alternation has at least one alternative (an `OR` with no alternative
      would end every path that reaches it). */
  predicate NoEmptyAlternation(d: seq<Production>)
  {
    AllNodes(d, NotEmptyAlternation)
  }

  // ---------------------------------------------------------------------------
  // Size

  /** A structural size: every rewrite step of the CST analysis replaces the head
      production of a path by something strictly lighter. A separated repetition
      weighs more than `Repetition([Terminal(sep)] + body)` followed by a sentinel. */
  function Weight(d: seq<Production>): nat
  {
    if d == [] then 0 else ProductionWeight(d[0]) + Weight(d[1..])
  }

  function ProductionWeight(p: Production): (w: nat)
    ensures w >= 1
  {
    match p
    case Terminal(_) => 1
    case NonTerminal(_) => 1
    case Option(b) => Weight(b) + 2
    case Repetition(b) => Weight(b) + 2
    case RepetitionMandatory(b) => Weight(b) + 2
    case RepetitionWithSeparator(b, _) => Weight(b) + 5
    case RepetitionMandatoryWithSeparator(b, _) => Weight(b) + 5
    case Alternation(alts) => AlternativesWeight(alts) + 2
    case ExitIteration => 1
    case ExitOption => 1
  }

  function AlternativesWeight(alts: seq<Flat>): nat
  {
    if alts == [] then 0 else Weight(alts[0].definition) + AlternativesWeight(alts[1..])
  }

  // ---------------------------------------------------------------------------
  // Basic facts

  lemma {:induction false} WeightAppend(a: seq<Production>, b: seq<Production>)
    ensures Weight(a + b) == Weight(a) + Weight(b)
  {
    if a == [] {
      assert a + b == b;
    } else {
      assert (a + b)[0] == a[0] && (a + b)[1..] == a[1..] + b;
      WeightAppend(a[1..], b);
    }
  }

  lemma {:induction false} AlternativeWeightBound(alts: seq<Flat>, i: nat)
    requires i < |alts|
    ensures Weight(alts[i].definition) <= AlternativesWeight(alts)
  {
    if i > 0 {
      AlternativeWeightBound(alts[1..], i - 1);
    }
  }

  lemma {:induction false} NamesAppend(a: seq<Production>, b: seq<Production>, withSeparators: bool)
    ensures Names(a + b, withSeparators) == Names(a, withSeparators) + Names(b, withSeparators)
  {
    if a == [] {
      assert a + b == b;
    } else {
      assert (a + b)[0] == a[0] && (a + b)[1..] == a[1..] + b;
      NamesAppend(a[1..], b, withSeparators);
    }
  }

  lemma {:induction false} NamesAt(d: seq<Production>, i: nat, withSeparators: bool)
    requires i < |d|
    ensures ProductionNames(d[i], withSeparators) <= Names(d, withSeparators)
  {
    if i > 0 {
      NamesAt(d[1..], i - 1, withSeparators);
    }
  }

  /** A name lies in some production of a definition. */
  lemma {:induction false} NameSomewhere(d: seq<Production>, name: string, withSeparators: bool)
    returns (i: nat)
    requires name in Names(d, withSeparators)
    ensures i < |d| && name in ProductionNames(d[i], withSeparators)
  {
    if name in ProductionNames(d[0], withSeparators) {
      i := 0;
    } else {
      var j := NameSomewhere(d[1..], name, withSeparators);
      i := j + 1;
    }
  }

  lemma {:induction false} AlternativeNamesAt(alts: seq<Flat>, i: nat, withSeparators: bool)
    requires i < |alts|
    ensures Names(alts[i].definition, withSeparators) <= AlternativesNames(alts, withSeparators)
  {
    if i > 0 {
      AlternativeNamesAt(alts[1..], i - 1, withSeparators);
    }
  }

  /** A name of an alternation lies in one of its alternatives. */
  lemma {:induction false} NameInSomeAlternative(alts: seq<Flat>, name: string, withSeparators: bool)
    returns (i: nat)
    requires name in AlternativesNames(alts, withSeparators)
    ensures i < |alts| && name in Names(alts[i].definition, withSeparators)
  {
    if name in Names(alts[0].definition, withSeparators) {
      i := 0;
    } else {
      var j := NameInSomeAlternative(alts[1..], name, withSeparators);
      i := j + 1;
    }
  }

  lemma AllNodesAppend(a: seq<Production>, b: seq<Production>, ok: Production -> bool)
    ensures AllNodes(a + b, ok) <==> AllNodes(a, ok) && AllNodes(b, ok)
  {
    if AllNodes(a, ok) && AllNodes(b, ok) {
      forall i | 0 <= i < |a + b| ensures NodeAndBelow((a + b)[i], ok) {
        if i >= |a| {
          assert (a + b)[i] == b[i - |a|];
        }
      }
    }
    if AllNodes(a + b, ok) {
      forall i | 0 <= i < |a| ensures NodeAndBelow(a[i], ok) {
        assert a[i] == (a + b)[i];
      }
      forall i | 0 <= i < |b| ensures NodeAndBelow(b[i], ok) {
        assert b[i] == (a + b)[|a| + i];
      }
    }
  }

  lemma {:induction false} CountNamedAppend(a: seq<Production>, b: seq<Production>, name: string)
    ensures CountNamed(a + b, name) == CountNamed(a, name) + CountNamed(b, name)
  {
    if a == [] {
      assert a + b == b;
    } else {
      assert (a + b)[0] == a[0] && (a + b)[1..] == a[1..] + b;
      CountNamedAppend(a[1..], b, name);
    }
  }
}
