/**
  CST shape analysis and CST node building (src/parse/cst/cst.ts).

  The analysis explores the paths of one rule's definition with an explicit LIFO
  worklist of path states and records, for every terminal and non-terminal name,
  whether its CST slot is a single value (`None`), a list (`Collection`) or an
  optional value (`Optional`). The node-building side seeds a node's children map
  from that classification and then appends or assigns children while parsing.
*/
module Cst {
  import opened Gast

  /** The classification of a child slot (the `CST_SUBTYPE` enum). */
  datatype CstSubtype = None | Collection | Optional

  // ===========================================================================
  // The init visitor

  /** Records every terminal and non-terminal name of a definition as `None`. */
  class ChildDictionaryDefInitVisitor {
    var result: map<string, CstSubtype>

    constructor ()
      ensures result == map[]
    {
      result := map[];
    }

    method VisitNonTerminal(node: Production)
      requires node.NonTerminal?
      modifies this
      ensures result == old(result)[node.nonTerminalName := None]
    {
      result := result[node.nonTerminalName := None];
    }

    method VisitTerminal(node: Production)
      requires node.Terminal?
      modifies this
      ensures result == old(result)[node.terminalName := None]
    {
      result := result[node.terminalName := None];
    }
  }

  /** Every name of `names` mapped to `None`. */
  function NoneOn(names: set<string>): (r: map<string, CstSubtype>)
    ensures r.Keys == names
    ensures forall name | name in r :: r[name] == None
  {
    map name | name in names :: None
  }

  lemma NoneOnUnion(r: map<string, CstSubtype>, a: set<string>, b: set<string>)
    ensures r + NoneOn(a) + NoneOn(b) == r + NoneOn(a + b)
  {
  }

  /** What the init visitor collects for a definition: every visited name as `None`. */
  function InitialResult(d: seq<Production>): map<string, CstSubtype>
  {
    NoneOn(VisitedNames(d))
  }

  /** The grammar walk (`Rule.accept` of the toolkit's visitor protocol): calls the
      visitor on every terminal and non-terminal of `d`, at any depth, in order. */
  method Accept(d: seq<Production>, visitor: ChildDictionaryDefInitVisitor)
    modifies visitor
    ensures visitor.result == old(visitor.result) + NoneOn(Names(d, false))
    decreases d, 2
  {
    for i := 0 to |d|
      invariant visitor.result == old(visitor.result) + NoneOn(Names(d[..i], false))
    {
      ghost var before := visitor.result;
      AcceptProduction(d[i], visitor);
      assert d[..i + 1] == d[..i] + [d[i]];
      NamesAppend(d[..i], [d[i]], false);
      assert Names([d[i]], false) == ProductionNames(d[i], false);
      NoneOnUnion(old(visitor.result), Names(d[..i], false), ProductionNames(d[i], false));
    }
    assert d[..|d|] == d;
  }

  method AcceptProduction(p: Production, visitor: ChildDictionaryDefInitVisitor)
    modifies visitor
    ensures visitor.result == old(visitor.result) + NoneOn(ProductionNames(p, false))
    decreases p, 1
  {
    match p {
      case Terminal(_) => visitor.VisitTerminal(p);
      case NonTerminal(_) => visitor.VisitNonTerminal(p);
      case Option(b) => Accept(b, visitor);
      case Repetition(b) => Accept(b, visitor);
      case RepetitionMandatory(b) => Accept(b, visitor);
      case RepetitionWithSeparator(b, _) => Accept(b, visitor);
      case RepetitionMandatoryWithSeparator(b, _) => Accept(b, visitor);
      case Alternation(alts) => AcceptAlternatives(p, alts, visitor);
      case ExitIteration =>
      case ExitOption =>
    }
  }

  method AcceptAlternatives(ghost p: Production, alts: seq<Flat>, visitor: ChildDictionaryDefInitVisitor)
    requires p == Alternation(alts)
    modifies visitor
    ensures visitor.result == old(visitor.result) + NoneOn(AlternativesNames(alts, false))
    decreases p, 0
  {
    for j := 0 to |alts|
      invariant visitor.result == old(visitor.result) + NoneOn(AlternativesNames(alts[..j], false))
    {
      Accept(alts[j].definition, visitor);
      AlternativesNamesSnoc(alts[..j], alts[j]);
      assert alts[..j + 1] == alts[..j] + [alts[j]];
      NoneOnUnion(old(visitor.result), AlternativesNames(alts[..j], false), Names(alts[j].definition, false));
    }
    assert alts[..|alts|] == alts;
  }

  lemma {:induction false} AlternativesNamesSnoc(alts: seq<Flat>, alt: Flat)
    ensures AlternativesNames(alts + [alt], false) == AlternativesNames(alts, false) + Names(alt.definition, false)
  {
    if alts == [] {
      assert [alt][1..] == [];
    } else {
      assert (alts + [alt])[1..] == alts[1..] + [alt];
      AlternativesNamesSnoc(alts[1..], alt);
    }
  }

  // ===========================================================================
  // Path states and one exploration step

  /** One path under exploration: the rest of the definition still to walk (with
      sentinels spliced in), the iteration and option context stacks, and the number
      of times each name has occurred so far on this path. */
  datatype PathState = PathState(
    def: seq<Production>,
    inIteration: seq<bool>,
    inOption: seq<bool>,
    currResult: map<string, nat>)

  /** `last` of the toolkit's utilities: `undefined` (falsy) on an empty array. */
  function Last(s: seq<bool>): bool
  {
    |s| > 0 && s[|s| - 1]
  }

  /** `dropRight`: everything but the last element; the empty array stays empty. */
  function DropRight(s: seq<bool>): (r: seq<bool>)
    ensures |r| == if s == [] then 0 else |s| - 1
    ensures r <= s
  {
    if s == [] then [] else s[..|s| - 1]
  }

  function OccurrencesSoFar(counts: map<string, nat>, name: string): nat
  {
    if name in counts then counts[name] else 0
  }

  /** The per-path counter after one more occurrence of `name`. */
  function Counted(counts: map<string, nat>, name: string): (r: map<string, nat>)
    ensures r.Keys == counts.Keys + {name}
    ensures OccurrencesSoFar(r, name) == OccurrencesSoFar(counts, name) + 1
    ensures forall other | other != name :: OccurrencesSoFar(r, other) == OccurrencesSoFar(counts, other)
  {
    counts[name := OccurrencesSoFar(counts, name) + 1]
  }

  /** What one step does to the shared result table: nothing, or one `put`. */
  datatype ResultWrite = NoWrite | Write(key: string, value: CstSubtype)

  function Apply(result: map<string, CstSubtype>, w: ResultWrite): map<string, CstSubtype>
  {
    match w
    case NoWrite => result
    case Write(key, value) => result[key := value]
  }

  /** The classification of an item met for the `occurrencesFound`-th time on a
      path: a second occurrence or an iteration context makes it a collection,
      otherwise an option context makes it optional, otherwise nothing is written. */
  function Classify(name: string, occurrencesFound: nat, inIteration: seq<bool>, inOption: seq<bool>): (w: ResultWrite)
    ensures w.Write? ==> w.key == name
    ensures w == Write(name, Collection) <==> occurrencesFound > 1 || Last(inIteration)
    ensures w == Write(name, Optional) <==> !(occurrencesFound > 1 || Last(inIteration)) && Last(inOption)
    ensures w.Write? ==> w.value != None
  {
    if occurrencesFound > 1 || Last(inIteration) then Write(name, Collection)
    else if Last(inOption) then Write(name, Optional)
    else NoWrite
  }

  /** The write performed when path `p` is popped. */
  function Written(p: PathState): ResultWrite
  {
    if p.def == [] || !IsItem(p.def[0]) then NoWrite
    else
      var name := ItemName(p.def[0]);
      Classify(name, OccurrencesSoFar(p.currResult, name) + 1, p.inIteration, p.inOption)
  }

  /** Only a popped terminal or non-terminal writes, and it writes its own name:
      exactly when it was met before on the path or an iteration or option layer
      is innermost, and never `None`. */
  lemma WrittenByItems(p: PathState)
    ensures Written(p).Write? <==>
      p.def != [] && IsItem(p.def[0]) &&
      (OccurrencesSoFar(p.currResult, ItemName(p.def[0])) > 0 || Last(p.inIteration) || Last(p.inOption))
    ensures Written(p).Write? ==> Written(p).key == ItemName(p.def[0]) && Written(p).value != None
  {
  }

  /** The path pushed for one alternative of an alternation. With a single
      alternative no option layer and no `EXIT_OPTION` sentinel are added, and the
      option stack becomes a copy of the iteration stack. */
  function AlternativePath(alt: Flat, hasMoreThanOneAlt: bool, rest: seq<Production>,
                           inIteration: seq<bool>, counts: map<string, nat>): PathState
  {
    if hasMoreThanOneAlt then
      PathState(alt.definition + [ExitOption] + rest, inIteration, inIteration + [true], counts)
    else
      PathState(alt.definition + rest, inIteration, inIteration, counts)
  }

  /** The alternatives' paths in push order: the last alternative is pushed first,
      so the first alternative is explored first. */
  function AlternativePaths(alts: seq<Flat>, rest: seq<Production>, inIteration: seq<bool>,
                            counts: map<string, nat>): (r: seq<PathState>)
    ensures |r| == |alts|
    ensures forall j | 0 <= j < |alts| ::
      r[j] == AlternativePath(alts[|alts| - 1 - j], |alts| > 1, rest, inIteration, counts)
  {
    seq(|alts|, j requires 0 <= j < |alts| =>
      AlternativePath(alts[|alts| - 1 - j], |alts| > 1, rest, inIteration, counts))
  }

  /** What each pushed alternative path holds: the popped path's iteration stack
      and counts; with several alternatives, the alternative, `EXIT_OPTION` and the
      rest, under one option layer on top of the iteration stack; with a single
      alternative, the alternative and the rest, under a copy of the iteration
      stack. */
  lemma AlternativePathsShape(alts: seq<Flat>, rest: seq<Production>, inIteration: seq<bool>,
                              counts: map<string, nat>)
    ensures var r := AlternativePaths(alts, rest, inIteration, counts);
      forall j | 0 <= j < |r| :: r[j].inIteration == inIteration && r[j].currResult == counts
    ensures var r := AlternativePaths(alts, rest, inIteration, counts);
      |alts| > 1 ==> forall j | 0 <= j < |r| ::
        r[j].inOption == inIteration + [true] &&
        r[j].def == alts[|alts| - 1 - j].definition + [ExitOption] + rest
    ensures |alts| == 1 ==>
      AlternativePaths(alts, rest, inIteration, counts) == [PathState(alts[0].definition + rest, inIteration, inIteration, counts)]
  {
  }

  /** The paths pushed when `p` is popped, in push order. An empty path, and an
      alternation without alternatives, push nothing. */
  function Successors(p: PathState): seq<PathState>
  {
    if p.def == [] then []
    else
      var rest := p.def[1..];
      var it, op, counts := p.inIteration, p.inOption, p.currResult;
      match p.def[0]
      case ExitIteration => [PathState(rest, DropRight(it), op, counts)]
      case ExitOption => [PathState(rest, it, DropRight(op), counts)]
      case Terminal(name) => [PathState(rest, it, op, Counted(counts, name))]
      case NonTerminal(name) => [PathState(rest, it, op, Counted(counts, name))]
      case Option(b) => [PathState(b + [ExitOption] + rest, it, it + [true], counts)]
      case Repetition(b) => [PathState(b + [ExitIteration] + rest, it + [true], op, counts)]
      case RepetitionMandatory(b) => [PathState(b + [ExitIteration] + rest, it + [true], op, counts)]
      case RepetitionWithSeparator(b, sep) => [PathState(SeparatedRewrite(b, sep) + rest, it + [true], op, counts)]
      case RepetitionMandatoryWithSeparator(b, sep) => [PathState(SeparatedRewrite(b, sep) + rest, it + [true], op, counts)]
      case Alternation(alts) => AlternativePaths(alts, rest, it, counts)
  }

  /** Every pushed path is strictly lighter than the popped one, which is why the
      worklist empties. */
  lemma SuccessorsLighter(p: PathState)
    ensures forall q | q in Successors(p) :: Weight(q.def) < Weight(p.def)
  {
    if p.def != [] {
      var rest := p.def[1..];
      assert Weight(p.def) == ProductionWeight(p.def[0]) + Weight(rest);
      match p.def[0]
      case Option(b) => BodyThenSentinelWeight(b, ExitOption, rest);
      case Repetition(b) => BodyThenSentinelWeight(b, ExitIteration, rest);
      case RepetitionMandatory(b) => BodyThenSentinelWeight(b, ExitIteration, rest);
      case RepetitionWithSeparator(b, sep) => SeparatedRewriteWeight(b, sep, rest);
      case RepetitionMandatoryWithSeparator(b, sep) => SeparatedRewriteWeight(b, sep, rest);
      case Alternation(alts) => AlternativePathsLighter(alts, rest, p.inIteration, p.currResult);
      case _ =>
    }
  }

  lemma BodyThenSentinelWeight(b: seq<Production>, sentinel: Production, rest: seq<Production>)
    requires IsMarker(sentinel)
    ensures Weight(b + [sentinel] + rest) == Weight(b) + 1 + Weight(rest)
  {
    WeightAppend(b + [sentinel], rest);
    WeightAppend(b, [sentinel]);
  }

  lemma AlternativePathsLighter(alts: seq<Flat>, rest: seq<Production>, it: seq<bool>, counts: map<string, nat>)
    ensures forall q | q in AlternativePaths(alts, rest, it, counts) ::
      Weight(q.def) < AlternativesWeight(alts) + 2 + Weight(rest)
  {
    var r := AlternativePaths(alts, rest, it, counts);
    forall j | 0 <= j < |alts| ensures Weight(r[j].def) < AlternativesWeight(alts) + 2 + Weight(rest) {
      var alt := alts[|alts| - 1 - j];
      AlternativeWeightBound(alts, |alts| - 1 - j);
      BodyThenSentinelWeight(alt.definition, ExitOption, rest);
      WeightAppend(alt.definition, rest);
    }
  }

  /** `X (SEP X)*` is explored as `(SEP X)*` inside one more iteration layer: a
      repetition whose body starts with the separator, then an `EXIT_ITERATION`. */
  function SeparatedRewrite(body: seq<Production>, separator: string): seq<Production>
  {
    [Repetition([Terminal(separator)] + body), ExitIteration]
  }

  lemma SeparatedRewriteWeight(body: seq<Production>, separator: string, rest: seq<Production>)
    ensures Weight(SeparatedRewrite(body, separator) + rest) < Weight(body) + 5 + Weight(rest)
  {
    var rewrite := SeparatedRewrite(body, separator);
    WeightAppend(rewrite, rest);
    WeightAppend([Terminal(separator)], body);
    assert Weight(rewrite) == ProductionWeight(rewrite[0]) + Weight(rewrite[1..]);
    assert rewrite[1..] == [ExitIteration];
  }

  // ===========================================================================
  // The exploration as a function

  /** The number of pops needed to exhaust the exploration tree below `p`. */
  ghost function Cost(p: PathState): nat
    decreases Weight(p.def), 1
  {
    SuccessorsLighter(p);
    1 + SuccessorsCost(Successors(p), Weight(p.def))
  }

  ghost function SuccessorsCost(ps: seq<PathState>, bound: nat): nat
    requires forall q | q in ps :: Weight(q.def) < bound
    decreases bound, 0, |ps|
  {
    if ps == [] then 0
    else SuccessorsCost(ps[..|ps| - 1], bound) + Cost(ps[|ps| - 1])
  }

  /** The number of pops needed to empty a worklist. */
  ghost function StackCost(ps: seq<PathState>): nat
  {
    if ps == [] then 0 else StackCost(ps[..|ps| - 1]) + Cost(ps[|ps| - 1])
  }

  lemma {:induction false} SuccessorsCostIsStackCost(ps: seq<PathState>, bound: nat)
    requires forall q | q in ps :: Weight(q.def) < bound
    ensures SuccessorsCost(ps, bound) == StackCost(ps)
  {
    if ps != [] {
      SuccessorsCostIsStackCost(ps[..|ps| - 1], bound);
    }
  }

  lemma {:induction false} StackCostAppend(a: seq<PathState>, b: seq<PathState>)
    ensures StackCost(a + b) == StackCost(a) + StackCost(b)
  {
    if b == [] {
      assert a + b == a;
    } else {
      assert (a + b)[..|a + b| - 1] == a + b[..|b| - 1];
      StackCostAppend(a, b[..|b| - 1]);
    }
  }

  /** Popping the top path and pushing its successors uses up exactly one pop. */
  lemma StackCostStep(stack: seq<PathState>)
    requires stack != []
    ensures StackCost(stack[..|stack| - 1] + Successors(stack[|stack| - 1])) == StackCost(stack) - 1
  {
    var p := stack[|stack| - 1];
    SuccessorsLighter(p);
    StackCostAppend(stack[..|stack| - 1], Successors(p));
    SuccessorsCostIsStackCost(Successors(p), Weight(p.def));
  }

  /** The worklist loop as a function: pops the last path, performs its write and
      pushes its successors, until the worklist is empty. */
  ghost function RunStack(stack: seq<PathState>, result: map<string, CstSubtype>): map<string, CstSubtype>
    decreases StackCost(stack)
  {
    if stack == [] then result
    else
      var p := stack[|stack| - 1];
      StackCostStep(stack);
      RunStack(stack[..|stack| - 1] + Successors(p), Apply(result, Written(p)))
  }

  /** The path the exploration starts from. */
  function InitialPath(d: seq<Production>): PathState
  {
    PathState(d, [], [], map[])
  }

  /** The classification `buildChildDictionaryDef` computes for a definition. */
  ghost function DictionaryDef(d: seq<Production>): map<string, CstSubtype>
  {
    RunStack([InitialPath(d)], InitialResult(d))
  }

  // ===========================================================================
  // The analysis, as the source runs it

  /** The `addSingleItemToResult` closure: counts one more occurrence of
      `itemName` on the current path, classifies it into `result` and pushes the
      continuation path. */
  method AddSingleItemToResult(itemName: string, currPath: PathState,
                               result: map<string, CstSubtype>, possiblePaths: seq<PathState>)
    returns (newResult: map<string, CstSubtype>, newPaths: seq<PathState>)
    requires currPath.def != [] && IsNamed(currPath.def[0], itemName)
    ensures newResult == Apply(result, Written(currPath))
    ensures newPaths == possiblePaths + Successors(currPath)
  {
    var currResult := Counted(currPath.currResult, itemName);
    var occurrencesFound := currResult[itemName];
    newResult := result;
    if occurrencesFound > 1 || Last(currPath.inIteration) {
      newResult := newResult[itemName := Collection];
    } else if Last(currPath.inOption) {
      newResult := newResult[itemName := Optional];
    }
    var nextPath := PathState(currPath.def[1..], currPath.inIteration, currPath.inOption, currResult);
    newPaths := possiblePaths + [nextPath];
  }

  /** `buildChildDictionaryDef`: seeds every name with `None`, then explores the
      paths of `initialDef` with a LIFO worklist, overwriting a name's entry on
      every write (the last write wins). */
  method BuildChildDictionaryDef(initialDef: seq<Production>) returns (result: map<string, CstSubtype>)
    ensures result == DictionaryDef(initialDef)
  {
    var initVisitor := new ChildDictionaryDefInitVisitor();
    Accept(initialDef, initVisitor);
    result := initVisitor.result;
    assert result == InitialResult(initialDef) by {
      assert map[] + NoneOn(VisitedNames(initialDef)) == NoneOn(VisitedNames(initialDef));
    }

    var possiblePaths := [InitialPath(initialDef)];
    while possiblePaths != []
      invariant RunStack(possiblePaths, result) == DictionaryDef(initialDef)
      decreases StackCost(possiblePaths)
    {
      var currPath := possiblePaths[|possiblePaths| - 1];
      StackCostStep(possiblePaths);
      result, possiblePaths := ExplorePath(currPath, result, possiblePaths[..|possiblePaths| - 1]);
    }
  }

  /** The body of the worklist loop for one popped path: performs its write (if
      any) and pushes its continuation paths. Every pushed path carries its own
      copy of the per-path counter (`cloneObj`); values are copies here anyway. */
  method ExplorePath(currPath: PathState, result: map<string, CstSubtype>, possiblePaths: seq<PathState>)
    returns (newResult: map<string, CstSubtype>, newPaths: seq<PathState>)
    ensures newResult == Apply(result, Written(currPath))
    ensures newPaths == possiblePaths + Successors(currPath)
  {
    var currDef := currPath.def;
    var currInIteration := currPath.inIteration;
    var currInOption := currPath.inOption;
    var currResult := currPath.currResult;
    newResult, newPaths := result, possiblePaths;

    // an empty path can exist in a valid grammar, e.g. an empty alternative
    if currDef == [] {
      return;
    }

    var prod := currDef[0];
    match prod {
      case ExitIteration =>
        newPaths := newPaths + [PathState(currDef[1..], DropRight(currInIteration), currInOption, currResult)];
      case ExitOption =>
        newPaths := newPaths + [PathState(currDef[1..], currInIteration, DropRight(currInOption), currResult)];
      case Terminal(terminalName) =>
        newResult, newPaths := AddSingleItemToResult(terminalName, currPath, newResult, newPaths);
      case NonTerminal(nonTerminalName) =>
        newResult, newPaths := AddSingleItemToResult(nonTerminalName, currPath, newResult, newPaths);
      case Option(b) =>
        var newInOption := currInIteration + [true];
        newPaths := newPaths + [PathState(b + [ExitOption] + currDef[1..], currInIteration, newInOption, currResult)];
      case Repetition(b) =>
        var newInIteration := currInIteration + [true];
        newPaths := newPaths + [PathState(b + [ExitIteration] + currDef[1..], newInIteration, currInOption, currResult)];
      case RepetitionMandatory(b) =>
        var newInIteration := currInIteration + [true];
        newPaths := newPaths + [PathState(b + [ExitIteration] + currDef[1..], newInIteration, currInOption, currResult)];
      case RepetitionWithSeparator(b, sep) =>
        var secondIteration := Repetition([Terminal(sep)] + b);
        var newInIteration := currInIteration + [true];
        newPaths := newPaths + [PathState([secondIteration, ExitIteration] + currDef[1..], newInIteration, currInOption, currResult)];
      case RepetitionMandatoryWithSeparator(b, sep) =>
        var secondIteration := Repetition([Terminal(sep)] + b);
        var newInIteration := currInIteration + [true];
        newPaths := newPaths + [PathState([secondIteration, ExitIteration] + currDef[1..], newInIteration, currInOption, currResult)];
      case Alternation(alts) =>
        newPaths := PushAlternatives(alts, currDef[1..], currInIteration, currResult, newPaths);
    }
  }

  /** Pushes one path per alternative, from the last alternative to the first. */
  method PushAlternatives(alts: seq<Flat>, rest: seq<Production>, currInIteration: seq<bool>,
                          currResult: map<string, nat>, possiblePaths: seq<PathState>)
    returns (newPaths: seq<PathState>)
    ensures newPaths == possiblePaths + AlternativePaths(alts, rest, currInIteration, currResult)
  {
    var hasMoreThanOneAlt := |alts| > 1;
    ghost var pushed := AlternativePaths(alts, rest, currInIteration, currResult);
    newPaths := possiblePaths;
    var i := |alts| - 1;
    while i >= 0
      invariant -1 <= i < |alts|
      invariant newPaths == possiblePaths + pushed[..|alts| - 1 - i]
    {
      var currAlt := alts[i];
      var newInOption;
      var newDef;
      if hasMoreThanOneAlt {
        newInOption := currInIteration + [true];
        newDef := currAlt.definition + [ExitOption] + rest;
      } else {
        newInOption := currInIteration;
        newDef := currAlt.definition + rest;
      }
      newPaths := newPaths + [PathState(newDef, currInIteration, newInOption, currResult)];
      assert pushed[..|alts| - i] == pushed[..|alts| - 1 - i] + [pushed[|alts| - 1 - i]];
      i := i - 1;
    }
    assert pushed[..|alts|] == pushed;
  }

  // ===========================================================================
  // The analysis over a list of top rules

  /** The classification table of a rule list: each rule name maps to the
      analysis of the last rule in the list with that name (`put` overwrites). */
  ghost function TopRulesDef(topRules: seq<Rule>): map<string, map<string, CstSubtype>>
  {
    if topRules == [] then map[]
    else
      var last := topRules[|topRules| - 1];
      TopRulesDef(topRules[..|topRules| - 1])[last.name := DictionaryDef(last.definition)]
  }

  /** The keys of the table are exactly the rule names. */
  lemma {:induction false} TopRulesDefKeys(topRules: seq<Rule>)
    ensures TopRulesDef(topRules).Keys == set rule | rule in topRules :: rule.name
  {
    if topRules != [] {
      var init, last := topRules[..|topRules| - 1], topRules[|topRules| - 1];
      TopRulesDefKeys(init);
      assert topRules == init + [last];
      assert (set rule | rule in topRules :: rule.name) == (set rule | rule in init :: rule.name) + {last.name};
    }
  }

  /** A rule that no later rule shadows has its own analysis in the table. */
  lemma {:induction false} TopRulesDefValue(topRules: seq<Rule>, i: nat)
    requires i < |topRules| && LastNamed(topRules, i)
    ensures topRules[i].name in TopRulesDef(topRules)
    ensures TopRulesDef(topRules)[topRules[i].name] == DictionaryDef(topRules[i].definition)
  {
    var init := topRules[..|topRules| - 1];
    if i < |init| {
      assert LastNamed(init, i) by {
        forall j | i < j < |init| ensures init[j].name != init[i].name {
          assert init[j] == topRules[j];
        }
      }
      TopRulesDefValue(init, i);
      assert topRules[|topRules| - 1].name != topRules[i].name;
    }
  }

  /** No rule after position `i` carries the name of rule `i`. */
  predicate LastNamed(topRules: seq<Rule>, i: nat)
    requires i < |topRules|
  {
    forall j | i < j < |topRules| :: topRules[j].name != topRules[i].name
  }

  /** `buildChildrenDictionaryDefTopRules`: runs the analysis on every top rule and
      stores its result under the rule's name. */
  method BuildChildrenDictionaryDefTopRules(topRules: seq<Rule>) returns (result: map<string, map<string, CstSubtype>>)
    ensures result == TopRulesDef(topRules)
  {
    result := map[];
    for i := 0 to |topRules|
      invariant result == TopRulesDef(topRules[..i])
    {
      var currRuleDictionaryDef := BuildChildDictionaryDef(topRules[i].definition);
      result := result[topRules[i].name := currRuleDictionaryDef];
      assert topRules[..i + 1][..i] == topRules[..i];
    }
    assert topRules[..|topRules|] == topRules;
  }

  // ===========================================================================
  // CST nodes and their children dictionaries

  /** A lexed token, reduced to what the CST code reads of it: the name of its
      token class and its image. */
  datatype Token = Token(tokenClassName: string, image: string)

  /** A child of a CST node: a token or a sub-node. */
  datatype CstElement = TokenChild(token: Token) | NodeChild(node: CstNode)

  /** The value under one key of a children dictionary: `undefined`, a single
      element, or an array of elements. */
  datatype CstSlot = Undefined | Single(element: CstElement) | Many(elements: seq<CstElement>)

  /** A CST node: the name of the rule that built it and its children dictionary,
      which is filled in place while the rule is parsed. */
  class CstNode {
    const name: string
    var childrenDictionary: map<string, CstSlot>

    constructor (name: string, childrenDictionary: map<string, CstSlot>)
      ensures this.name == name && this.childrenDictionary == childrenDictionary
    {
      this.name := name;
      this.childrenDictionary := childrenDictionary;
    }
  }

  /** Adding one child to a children dictionary, or the `TypeError` JavaScript
      raises when a `Collection` slot holds no array to `push` onto. */
  datatype AddOutcome = Updated(children: map<string, CstSlot>) | TypeError

  /** A `Collection` child is appended to the array under its key; any other child
      is assigned to its key, replacing what was there. No other key changes. */
  function WithChild(children: map<string, CstSlot>, key: string, element: CstElement, cstType: CstSubtype): (r: AddOutcome)
    ensures r.TypeError? <==> cstType == Collection && !(key in children && children[key].Many?)
    ensures r.Updated? ==> r.children.Keys == children.Keys + {key}
    ensures r.Updated? ==> forall k | k in children && k != key :: r.children[k] == children[k]
    ensures r.Updated? && cstType == Collection ==>
      r.children[key].Many? && r.children[key].elements == children[key].elements + [element]
    ensures r.Updated? && cstType != Collection ==> r.children[key] == Single(element)
  {
    if cstType == Collection then
      if key in children && children[key].Many? then
        Updated(children[key := Many(children[key].elements + [element])])
      else TypeError
    else Updated(children[key := Single(element)])
  }

  /** `addTerminalToCst`: adds a token under the name of its token class. */
  method AddTerminalToCst(node: CstNode, token: Token, cstType: CstSubtype) returns (ok: bool)
    modifies node
    ensures ok <==> WithChild(old(node.childrenDictionary), token.tokenClassName, TokenChild(token), cstType).Updated?
    ensures ok ==> node.childrenDictionary == WithChild(old(node.childrenDictionary), token.tokenClassName, TokenChild(token), cstType).children
    ensures !ok ==> node.childrenDictionary == old(node.childrenDictionary)
  {
    var tokenClassName := token.tokenClassName;
    ok := true;
    if cstType == Collection {
      if tokenClassName in node.childrenDictionary && node.childrenDictionary[tokenClassName].Many? {
        var tokens := node.childrenDictionary[tokenClassName].elements;
        node.childrenDictionary := node.childrenDictionary[tokenClassName := Many(tokens + [TokenChild(token)])];
      } else {
        ok := false;
      }
    } else {
      node.childrenDictionary := node.childrenDictionary[tokenClassName := Single(TokenChild(token))];
    }
  }

  /** `addNoneTerminalToCst`: adds the node a sub-rule built under the sub-rule's
      name. */
  method AddNoneTerminalToCst(node: CstNode, ruleName: string, ruleResult: CstNode, cstType: CstSubtype)
    returns (ok: bool)
    modifies node
    ensures ok <==> WithChild(old(node.childrenDictionary), ruleName, NodeChild(ruleResult), cstType).Updated?
    ensures ok ==> node.childrenDictionary == WithChild(old(node.childrenDictionary), ruleName, NodeChild(ruleResult), cstType).children
    ensures !ok ==> node.childrenDictionary == old(node.childrenDictionary)
  {
    ok := true;
    if cstType == Collection {
      if ruleName in node.childrenDictionary && node.childrenDictionary[ruleName].Many? {
        var nodes := node.childrenDictionary[ruleName].elements;
        node.childrenDictionary := node.childrenDictionary[ruleName := Many(nodes + [NodeChild(ruleResult)])];
      } else {
        ok := false;
      }
    } else {
      node.childrenDictionary := node.childrenDictionary[ruleName := Single(NodeChild(ruleResult))];
    }
  }

  /** A children dictionary agrees with its rule's classification: only classified
      names are keys, a `Collection` name holds an array, an `Optional` name is
      present and holds no array, a `None` name is absent or holds one element. */
  predicate Shaped(children: map<string, CstSlot>, dictionaryDef: map<string, CstSubtype>)
  {
    (forall k | k in children :: k in dictionaryDef) &&
    forall k | k in dictionaryDef ::
      match dictionaryDef[k]
      case Collection => k in children && children[k].Many?
      case Optional => k in children && !children[k].Many?
      case None => k !in children || children[k].Single?
  }

  /** The children dictionary of a node about to be built: an empty array for
      every `Collection` name, an `undefined` entry for every `Optional` name, and
      no entry for a `None` name. */
  predicate Initialized(children: map<string, CstSlot>, dictionaryDef: map<string, CstSubtype>)
  {
    (forall k | k in dictionaryDef && dictionaryDef[k] != None :: k in children) &&
    forall k | k in children ::
      k in dictionaryDef && dictionaryDef[k] != None &&
      children[k] == if dictionaryDef[k] == Collection then Many([]) else Undefined
  }

  /** `initChildrenDictionary`: walks the classified names once. */
  method InitChildrenDictionary(dictionaryDef: map<string, CstSubtype>) returns (childrenDictionary: map<string, CstSlot>)
    ensures Initialized(childrenDictionary, dictionaryDef)
  {
    childrenDictionary := map[];
    var keys := dictionaryDef.Keys;
    while keys != {}
      invariant keys <= dictionaryDef.Keys
      invariant forall k :: k in childrenDictionary <==> k in dictionaryDef && k !in keys && dictionaryDef[k] != None
      invariant forall k | k in childrenDictionary ::
        childrenDictionary[k] == if dictionaryDef[k] == Collection then Many([]) else Undefined
      decreases keys
    {
      var key :| key in keys;
      var value := dictionaryDef[key];
      if value == Collection {
        childrenDictionary := childrenDictionary[key := Many([])];
      } else if value == Optional {
        childrenDictionary := childrenDictionary[key := Undefined];
      }
      keys := keys - {key};
    }
  }

  /** A freshly initialised dictionary agrees with its classification. */
  lemma InitializedIsShaped(children: map<string, CstSlot>, dictionaryDef: map<string, CstSubtype>)
    requires Initialized(children, dictionaryDef)
    ensures Shaped(children, dictionaryDef)
  {
  }

  /** After one child is added to a `Collection` slot and one to an `Optional`
      slot of a fresh dictionary, the first slot is a one-element array and the
      second holds the child itself. */
  lemma InitializedThenAdd(children: map<string, CstSlot>, dictionaryDef: map<string, CstSubtype>,
                           listKey: string, optionalKey: string, first: CstElement, second: CstElement)
    requires Initialized(children, dictionaryDef)
    requires listKey in dictionaryDef && dictionaryDef[listKey] == Collection
    requires optionalKey in dictionaryDef && dictionaryDef[optionalKey] == Optional
    ensures WithChild(children, listKey, first, Collection).Updated?
    ensures WithChild(WithChild(children, listKey, first, Collection).children, optionalKey, second, Optional).Updated?
    ensures var after := WithChild(WithChild(children, listKey, first, Collection).children, optionalKey, second, Optional).children;
      after[listKey] == Many([first]) && after[optionalKey] == Single(second)
  {
    assert children[listKey] == Many([]);
  }

  /** Adding a child under its own classification never throws on a shaped
      dictionary, and the dictionary stays shaped. */
  lemma AddKeepsShape(children: map<string, CstSlot>, dictionaryDef: map<string, CstSubtype>,
                      key: string, element: CstElement)
    requires Shaped(children, dictionaryDef) && key in dictionaryDef
    ensures WithChild(children, key, element, dictionaryDef[key]).Updated?
    ensures Shaped(WithChild(children, key, element, dictionaryDef[key]).children, dictionaryDef)
  {
  }

  /** Adding a child under a name the classification does not know is refused for
      a `Collection` slot, and otherwise leaves the dictionary unshaped. */
  lemma UnknownNameBreaksShape(children: map<string, CstSlot>, dictionaryDef: map<string, CstSubtype>,
                               key: string, element: CstElement, cstType: CstSubtype)
    requires Shaped(children, dictionaryDef) && key !in dictionaryDef
    ensures WithChild(children, key, element, cstType).TypeError? <==> cstType == Collection
    ensures WithChild(children, key, element, cstType).Updated? ==>
      !Shaped(WithChild(children, key, element, cstType).children, dictionaryDef)
  {
  }
}
