/**
  What the CST shape analysis of cst.dfy computes, proved about `DictionaryDef`,
  the function that `BuildChildDictionaryDef` is verified against.

  The exploration is a tree: popping a path performs at most one write and
  pushes its successors. The final value of a name is the last value written to
  it, so a name is classified `v` when every write to it in the tree stores `v`
  and at least one write happens. Both facts are established from invariants of
  path states that every step preserves.
*/
module CstTheory {
  import opened Gast
  import opened Cst

  // ===========================================================================
  // Writes in the exploration tree

  predicate WritesName(p: PathState, name: string)
  {
    Written(p).Write? && Written(p).key == name
  }

  /** Every write to `name` in the exploration tree below `p` stores `value`. */
  ghost predicate AllWrites(p: PathState, name: string, value: CstSubtype)
    decreases Weight(p.def)
  {
    (WritesName(p, name) ==> Written(p).value == value) &&
    (SuccessorsLighter(p);
     forall q | q in Successors(p) :: AllWrites(q, name, value))
  }

  /** Some step in the exploration tree below `p` writes `name`. */
  ghost predicate SomeWrite(p: PathState, name: string)
    decreases Weight(p.def)
  {
    WritesName(p, name) ||
    (SuccessorsLighter(p);
     exists q | q in Successors(p) :: SomeWrite(q, name))
  }

  ghost predicate SomeWriteIn(stack: seq<PathState>, name: string)
  {
    exists q | q in stack :: SomeWrite(q, name)
  }

  /** The worklist after popping its last path and pushing that path's successors. */
  function Popped(stack: seq<PathState>): seq<PathState>
    requires stack != []
  {
    stack[..|stack| - 1] + Successors(stack[|stack| - 1])
  }

  lemma RunStackUnfold(stack: seq<PathState>, result: map<string, CstSubtype>)
    requires stack != []
    ensures StackCost(Popped(stack)) < StackCost(stack)
    ensures RunStack(stack, result) == RunStack(Popped(stack), Apply(result, Written(stack[|stack| - 1])))
  {
    StackCostStep(stack);
  }

  /** One step of a worklist holding a single path. */
  lemma RunSingle(p: PathState, result: map<string, CstSubtype>)
    ensures RunStack([p], result) == RunStack(Successors(p), Apply(result, Written(p)))
  {
    RunStackUnfold([p], result);
    assert Popped([p]) == Successors(p);
  }

  /** One step of a worklist holding a single path that has a single successor. */
  lemma RunSingleSuccessor(p: PathState, q: PathState, result: map<string, CstSubtype>)
    requires Successors(p) == [q]
    ensures RunStack([p], result) == RunStack([q], Apply(result, Written(p)))
  {
    RunSingle(p, result);
  }

  // One loop iteration per kind of head production, for a worklist of one path.

  /** An exhausted path is dropped without a write. */
  lemma EndOfPath(it: seq<bool>, op: seq<bool>, counts: map<string, nat>, result: map<string, CstSubtype>)
    ensures RunStack([PathState([], it, op, counts)], result) == result
  {
    RunSingle(PathState([], it, op, counts), result);
  }

  /** A terminal or non-terminal bumps its path counter and performs its write. */
  lemma ItemStep(item: Production, rest: seq<Production>, it: seq<bool>, op: seq<bool>,
                 counts: map<string, nat>, result: map<string, CstSubtype>)
    requires IsItem(item)
    ensures RunStack([PathState([item] + rest, it, op, counts)], result)
         == RunStack([PathState(rest, it, op, Counted(counts, ItemName(item)))],
                     Apply(result, Classify(ItemName(item), OccurrencesSoFar(counts, ItemName(item)) + 1, it, op)))
  {
    var p := PathState([item] + rest, it, op, counts);
    var q := PathState(rest, it, op, Counted(counts, ItemName(item)));
    HeadAndRest(item, rest);
    assert Successors(p) == [q];
    RunSingleSuccessor(p, q, result);
  }

  /** `EXIT_OPTION` closes the innermost option layer. */
  lemma ExitOptionStep(rest: seq<Production>, it: seq<bool>, op: seq<bool>,
                       counts: map<string, nat>, result: map<string, CstSubtype>)
    ensures RunStack([PathState([ExitOption] + rest, it, op, counts)], result)
         == RunStack([PathState(rest, it, DropRight(op), counts)], result)
  {
    var p := PathState([ExitOption] + rest, it, op, counts);
    var q := PathState(rest, it, DropRight(op), counts);
    HeadAndRest(ExitOption, rest);
    assert Successors(p) == [q] && Written(p) == NoWrite;
    RunSingleSuccessor(p, q, result);
  }

  /** `EXIT_ITERATION` closes the innermost iteration layer. */
  lemma ExitIterationStep(rest: seq<Production>, it: seq<bool>, op: seq<bool>,
                          counts: map<string, nat>, result: map<string, CstSubtype>)
    ensures RunStack([PathState([ExitIteration] + rest, it, op, counts)], result)
         == RunStack([PathState(rest, DropRight(it), op, counts)], result)
  {
    var p := PathState([ExitIteration] + rest, it, op, counts);
    var q := PathState(rest, DropRight(it), op, counts);
    HeadAndRest(ExitIteration, rest);
    assert Successors(p) == [q] && Written(p) == NoWrite;
    RunSingleSuccessor(p, q, result);
  }

  /** An option is entered with an option stack built from the iteration stack. */
  lemma OptionStep(b: seq<Production>, rest: seq<Production>, it: seq<bool>, op: seq<bool>,
                   counts: map<string, nat>, result: map<string, CstSubtype>)
    ensures RunStack([PathState([Option(b)] + rest, it, op, counts)], result)
         == RunStack([PathState(b + [ExitOption] + rest, it, it + [true], counts)], result)
  {
    var p := PathState([Option(b)] + rest, it, op, counts);
    var q := PathState(b + [ExitOption] + rest, it, it + [true], counts);
    HeadAndRest(Option(b), rest);
    assert Successors(p) == [q] && Written(p) == NoWrite;
    RunSingleSuccessor(p, q, result);
  }

  /** A repetition is entered with one more iteration layer. */
  lemma RepetitionStep(b: seq<Production>, rest: seq<Production>, it: seq<bool>, op: seq<bool>,
                       counts: map<string, nat>, result: map<string, CstSubtype>)
    ensures RunStack([PathState([Repetition(b)] + rest, it, op, counts)], result)
         == RunStack([PathState(b + [ExitIteration] + rest, it + [true], op, counts)], result)
  {
    var p := PathState([Repetition(b)] + rest, it, op, counts);
    var q := PathState(b + [ExitIteration] + rest, it + [true], op, counts);
    HeadAndRest(Repetition(b), rest);
    assert Successors(p) == [q] && Written(p) == NoWrite;
    RunSingleSuccessor(p, q, result);
  }

  /** An alternation is replaced by one path per alternative. */
  lemma AlternationStep(alts: seq<Flat>, rest: seq<Production>, it: seq<bool>, op: seq<bool>,
                        counts: map<string, nat>, result: map<string, CstSubtype>)
    ensures RunStack([PathState([Alternation(alts)] + rest, it, op, counts)], result)
         == RunStack(AlternativePaths(alts, rest, it, counts), result)
  {
    var p := PathState([Alternation(alts)] + rest, it, op, counts);
    HeadAndRest(Alternation(alts), rest);
    assert Successors(p) == AlternativePaths(alts, rest, it, counts) && Written(p) == NoWrite;
    RunSingle(p, result);
  }

  lemma HeadAndRest(x: Production, rest: seq<Production>)
    ensures ([x] + rest)[0] == x && ([x] + rest)[1..] == rest && [x] + rest != []
  {
  }

  lemma PoppedMembers(stack: seq<PathState>)
    requires stack != []
    ensures forall q | q in Popped(stack) :: q in stack[..|stack| - 1] || q in Successors(stack[|stack| - 1])
    ensures forall q | q in stack :: q in stack[..|stack| - 1] || q == stack[|stack| - 1]
  {
    assert stack == stack[..|stack| - 1] + [stack[|stack| - 1]];
  }

  lemma AllWritesStep(stack: seq<PathState>, name: string, value: CstSubtype)
    requires stack != []
    requires forall q | q in stack :: AllWrites(q, name, value)
    ensures WritesName(stack[|stack| - 1], name) ==> Written(stack[|stack| - 1]).value == value
    ensures forall q | q in Popped(stack) :: AllWrites(q, name, value)
  {
    PoppedMembers(stack);
    var p := stack[|stack| - 1];
    assert AllWrites(p, name, value);
    SuccessorsLighter(p);
    assert forall q | q in Successors(p) :: AllWrites(q, name, value);
  }

  lemma SomeWriteStep(stack: seq<PathState>, name: string)
    requires stack != []
    ensures SomeWriteIn(stack, name) <==>
      WritesName(stack[|stack| - 1], name) || SomeWriteIn(Popped(stack), name)
  {
    PoppedMembers(stack);
    var p := stack[|stack| - 1];
    SuccessorsLighter(p);
    assert SomeWrite(p, name) <==> WritesName(p, name) || exists q | q in Successors(p) :: SomeWrite(q, name);
    assert stack[..|stack| - 1] <= Popped(stack);
    if SomeWriteIn(Popped(stack), name) {
      var q :| q in Popped(stack) && SomeWrite(q, name);
      if q !in stack[..|stack| - 1] {
        assert SomeWrite(p, name);
      }
    }
  }

  /** Running a worklist whose writes to `name` all store `value`: the entry for
      `name` is `value` if some write happens, and is left as it was otherwise. */
  lemma {:induction false} RunStackWrites(stack: seq<PathState>, result: map<string, CstSubtype>,
                                          name: string, value: CstSubtype)
    requires forall q | q in stack :: AllWrites(q, name, value)
    ensures name in RunStack(stack, result) <==> name in result || SomeWriteIn(stack, name)
    ensures name in RunStack(stack, result) ==>
      RunStack(stack, result)[name] == if SomeWriteIn(stack, name) then value else result[name]
    decreases StackCost(stack)
  {
    if stack != [] {
      var p := stack[|stack| - 1];
      RunStackUnfold(stack, result);
      AllWritesStep(stack, name, value);
      SomeWriteStep(stack, name);
      RunStackWrites(Popped(stack), Apply(result, Written(p)), name, value);
    }
  }

  /** An invariant of path states that every step preserves, and that pins the
      value of every write to `name`, pins the value of every write in the tree. */
  lemma {:induction false} AllWritesByInvariant(inv: PathState -> bool, name: string, value: CstSubtype, p: PathState)
    requires inv(p)
    requires forall q, s | inv(q) && s in Successors(q) :: inv(s)
    requires forall q | inv(q) && WritesName(q, name) :: Written(q).value == value
    ensures AllWrites(p, name, value)
    decreases Weight(p.def)
  {
    SuccessorsLighter(p);
    forall s | s in Successors(p) ensures AllWrites(s, name, value) {
      AllWritesByInvariant(inv, name, value, s);
    }
  }

  /** A property of path states from which a write to `name` is always one step
      away or kept by some successor guarantees a write to `name`. */
  lemma {:induction false} SomeWriteByProgress(pending: PathState -> bool, name: string, p: PathState)
    requires pending(p)
    requires forall q | pending(q) :: WritesName(q, name) || exists s | s in Successors(q) :: pending(s)
    ensures SomeWrite(p, name)
    decreases Weight(p.def)
  {
    SuccessorsLighter(p);
    if !WritesName(p, name) {
      var s :| s in Successors(p) && pending(s);
      SomeWriteByProgress(pending, name, s);
    }
  }

  /** The classification of `name` in `d` is `value` when an invariant holding
      from the initial path pins every write to `value` and a write is bound to
      happen. */
  lemma ClassifiedByInvariant(d: seq<Production>, name: string, value: CstSubtype,
                              inv: PathState -> bool, pending: PathState -> bool)
    requires inv(InitialPath(d)) && pending(InitialPath(d))
    requires forall q, s | inv(q) && s in Successors(q) :: inv(s)
    requires forall q | inv(q) && WritesName(q, name) :: Written(q).value == value
    requires forall q | pending(q) :: WritesName(q, name) || exists s | s in Successors(q) :: pending(s)
    ensures name in DictionaryDef(d) && DictionaryDef(d)[name] == value
  {
    AllWritesByInvariant(inv, name, value, InitialPath(d));
    SomeWriteByProgress(pending, name, InitialPath(d));
    RunStackWrites([InitialPath(d)], InitialResult(d), name, value);
  }

  /** A name that no step of the tree writes keeps its seeded entry. */
  lemma UnwrittenByInvariant(d: seq<Production>, name: string, inv: PathState -> bool)
    requires inv(InitialPath(d))
    requires forall q, s | inv(q) && s in Successors(q) :: inv(s)
    requires forall q | inv(q) :: !WritesName(q, name)
    ensures name in DictionaryDef(d) <==> name in VisitedNames(d)
    ensures name in DictionaryDef(d) ==> DictionaryDef(d)[name] == None
  {
    AllWritesByInvariant(inv, name, None, InitialPath(d));
    NoWriteByInvariant(inv, name, InitialPath(d));
    RunStackWrites([InitialPath(d)], InitialResult(d), name, None);
  }

  lemma {:induction false} NoWriteByInvariant(inv: PathState -> bool, name: string, p: PathState)
    requires inv(p)
    requires forall q, s | inv(q) && s in Successors(q) :: inv(s)
    requires forall q | inv(q) :: !WritesName(q, name)
    ensures !SomeWrite(p, name)
    decreases Weight(p.def)
  {
    SuccessorsLighter(p);
    forall s | s in Successors(p) ensures !SomeWrite(s, name) {
      NoWriteByInvariant(inv, name, s);
    }
  }

  // ===========================================================================
  // Depth-first order

  /** The LIFO worklist explores depth first: the paths on top of the stack are
      exhausted before anything below them is touched. */
  lemma {:induction false} RunStackAppend(a: seq<PathState>, b: seq<PathState>, result: map<string, CstSubtype>)
    ensures RunStack(a + b, result) == RunStack(a, RunStack(b, result))
    decreases StackCost(b)
  {
    if b == [] {
      assert a + b == a;
    } else {
      var p := b[|b| - 1];
      var r := Apply(result, Written(p));
      RunStackUnfold(b, result);
      RunStackUnfold(a + b, result);
      assert (a + b)[..|a + b| - 1] == a + b[..|b| - 1];
      assert (a + b)[|a + b| - 1] == p;
      ConcatAssociative(a, b[..|b| - 1], Successors(p));
      RunStackAppend(a, Popped(b), r);
      assert RunStack(a + b, result) == RunStack(a + Popped(b), r);
    }
  }

  lemma ConcatAssociative<T>(x: seq<T>, y: seq<T>, z: seq<T>)
    ensures (x + y) + z == x + (y + z)
  {
  }

  // ===========================================================================
  // Which names get an entry

  /** The names a step writes, and the names its successors still mention, are
      names of the popped path. */
  lemma SuccessorsMentionFewer(p: PathState)
    ensures Written(p).Write? ==> Written(p).key in MentionedNames(p.def)
    ensures forall q | q in Successors(p) :: MentionedNames(q.def) <= MentionedNames(p.def)
  {
    if p.def != [] {
      var rest := p.def[1..];
      assert MentionedNames(p.def) == ProductionNames(p.def[0], true) + MentionedNames(rest);
      match p.def[0]
      case Option(b) => BodyThenSentinelNames(b, ExitOption, rest);
      case Repetition(b) => BodyThenSentinelNames(b, ExitIteration, rest);
      case RepetitionMandatory(b) => BodyThenSentinelNames(b, ExitIteration, rest);
      case RepetitionWithSeparator(b, sep) => SeparatedRewriteNames(b, sep, rest);
      case RepetitionMandatoryWithSeparator(b, sep) => SeparatedRewriteNames(b, sep, rest);
      case Alternation(alts) =>
        var r := AlternativePaths(alts, rest, p.inIteration, p.currResult);
        forall j | 0 <= j < |alts| ensures MentionedNames(r[j].def) <= MentionedNames(p.def) {
          var alt := alts[|alts| - 1 - j];
          AlternativeNamesAt(alts, |alts| - 1 - j, true);
          BodyThenSentinelNames(alt.definition, ExitOption, rest);
          NamesAppend(alt.definition, rest, true);
        }
      case _ =>
    }
  }

  lemma BodyThenSentinelNames(b: seq<Production>, sentinel: Production, rest: seq<Production>)
    requires IsMarker(sentinel)
    ensures forall w :: Names(b + [sentinel] + rest, w) == Names(b, w) + Names(rest, w)
  {
    forall w: bool ensures Names(b + [sentinel] + rest, w) == Names(b, w) + Names(rest, w) {
      NamesAppend(b + [sentinel], rest, w);
      NamesAppend(b, [sentinel], w);
      assert Names([sentinel], w) == {};
    }
  }

  lemma SeparatedRewriteNames(b: seq<Production>, sep: string, rest: seq<Production>)
    ensures MentionedNames(SeparatedRewrite(b, sep) + rest) == {sep} + MentionedNames(b) + MentionedNames(rest)
  {
    var rewrite := SeparatedRewrite(b, sep);
    NamesAppend(rewrite, rest, true);
    NamesAppend([Terminal(sep)], b, true);
    assert rewrite == [rewrite[0]] + [ExitIteration];
    NamesAppend([rewrite[0]], [ExitIteration], true);
    assert Names([rewrite[0]], true) == ProductionNames(rewrite[0], true);
    assert Names([ExitIteration], true) == {};
    assert Names([Terminal(sep)], true) == {sep};
  }

  /** Entries are never removed, and only mentioned names are ever written. */
  lemma {:induction false} RunStackKeys(stack: seq<PathState>, result: map<string, CstSubtype>, bound: set<string>)
    requires result.Keys <= bound
    requires forall q | q in stack :: MentionedNames(q.def) <= bound
    ensures result.Keys <= RunStack(stack, result).Keys <= bound
    decreases StackCost(stack)
  {
    if stack != [] {
      var p := stack[|stack| - 1];
      RunStackUnfold(stack, result);
      PoppedMembers(stack);
      SuccessorsMentionFewer(p);
      RunStackKeys(Popped(stack), Apply(result, Written(p)), bound);
    }
  }

  /** Every visited name has an entry, and every entry is a name of the definition
      or a separator. */
  lemma DictionaryDefKeys(d: seq<Production>)
    ensures VisitedNames(d) <= DictionaryDef(d).Keys <= MentionedNames(d)
  {
    VisitedWithinMentioned(d);
    RunStackKeys([InitialPath(d)], InitialResult(d), MentionedNames(d));
  }

  lemma {:induction false} VisitedWithinMentioned(d: seq<Production>)
    ensures VisitedNames(d) <= MentionedNames(d)
  {
    forall name | name in VisitedNames(d) ensures name in MentionedNames(d) {
      NamesMonotone(d, name);
    }
  }

  lemma {:induction false} NamesMonotone(d: seq<Production>, name: string)
    requires name in Names(d, false)
    ensures name in Names(d, true)
    decreases d
  {
    var i := NameSomewhere(d, name, false);
    NamesAt(d, i, true);
    match d[i]
    case Option(b) => NamesMonotone(b, name);
    case Repetition(b) => NamesMonotone(b, name);
    case RepetitionMandatory(b) => NamesMonotone(b, name);
    case RepetitionWithSeparator(b, _) => NamesMonotone(b, name);
    case RepetitionMandatoryWithSeparator(b, _) => NamesMonotone(b, name);
    case Alternation(alts) =>
      var j := NameInSomeAlternative(alts, name, false);
      NamesMonotone(alts[j].definition, name);
      AlternativeNamesAt(alts, j, true);
    case _ =>
  }

  // ===========================================================================
  // Structural helpers

  lemma AllNodesTail(d: seq<Production>, ok: Production -> bool)
    requires d != [] && AllNodes(d, ok)
    ensures NodeAndBelow(d[0], ok) && AllNodes(d[1..], ok)
  {
    assert forall i | 0 <= i < |d| - 1 :: d[1..][i] == d[i + 1];
  }

  /** Splicing a user body and a sentinel in front of the rest of a path keeps
      every node property that the sentinel satisfies. */
  lemma AllNodesSplice(b: seq<Production>, sentinel: Production, rest: seq<Production>, ok: Production -> bool)
    requires AllNodes(b, ok) && AllNodes(rest, ok) && ok(sentinel) && IsMarker(sentinel)
    ensures AllNodes(b + [sentinel] + rest, ok) && AllNodes(b + rest, ok)
  {
    AllNodesAppend(b, [sentinel], ok);
    AllNodesAppend(b + [sentinel], rest, ok);
    AllNodesAppend(b, rest, ok);
  }

  lemma SeparatedRewriteShape(b: seq<Production>, sep: string, rest: seq<Production>)
    ensures SeparatedRewrite(b, sep) + rest == [Repetition([Terminal(sep)] + b)] + [ExitIteration] + rest
    ensures ([Terminal(sep)] + b)[0] == Terminal(sep) && ([Terminal(sep)] + b)[1..] == b
  {
  }

  /** Stepping towards a name that is still mentioned: unless the name is at the
      head, some successor still mentions it (an alternation without alternatives
      would end the path, hence the well-formedness requirement). */
  lemma MentionProgress(q: PathState, name: string) returns (s: PathState)
    requires NoEmptyAlternation(q.def) && name in MentionedNames(q.def)
    requires !IsNamed(q.def[0], name)
    ensures s in Successors(q) && NoEmptyAlternation(s.def) && name in MentionedNames(s.def)
  {
    var x, rest := q.def[0], q.def[1..];
    AllNodesTail(q.def, NotEmptyAlternation);
    assert MentionedNames(q.def) == ProductionNames(x, true) + MentionedNames(rest);
    s := Successors(q)[0];
    match x
    case Option(b) =>
      BodyThenSentinelNames(b, ExitOption, rest);
      AllNodesSplice(b, ExitOption, rest, NotEmptyAlternation);
    case Repetition(b) =>
      BodyThenSentinelNames(b, ExitIteration, rest);
      AllNodesSplice(b, ExitIteration, rest, NotEmptyAlternation);
    case RepetitionMandatory(b) =>
      BodyThenSentinelNames(b, ExitIteration, rest);
      AllNodesSplice(b, ExitIteration, rest, NotEmptyAlternation);
    case RepetitionWithSeparator(b, sep) =>
      SeparatedProgress(b, sep, rest);
    case RepetitionMandatoryWithSeparator(b, sep) =>
      SeparatedProgress(b, sep, rest);
    case Alternation(alts) =>
      var r := AlternativePaths(alts, rest, q.inIteration, q.currResult);
      var i := 0;
      if name in AlternativesNames(alts, true) {
        i := NameInSomeAlternative(alts, name, true);
      }
      s := r[|alts| - 1 - i];
      var alt := alts[i].definition;
      assert AllNodes(alt, NotEmptyAlternation);
      BodyThenSentinelNames(alt, ExitOption, rest);
      NamesAppend(alt, rest, true);
      AllNodesSplice(alt, ExitOption, rest, NotEmptyAlternation);
    case _ =>
  }

  lemma SeparatedProgress(b: seq<Production>, sep: string, rest: seq<Production>)
    requires AllNodes(b, NotEmptyAlternation) && AllNodes(rest, NotEmptyAlternation)
    ensures NoEmptyAlternation(SeparatedRewrite(b, sep) + rest)
    ensures MentionedNames(SeparatedRewrite(b, sep) + rest) == {sep} + MentionedNames(b) + MentionedNames(rest)
  {
    SeparatedRewriteNames(b, sep, rest);
    SeparatedRewriteShape(b, sep, rest);
    AllNodesAppend([Terminal(sep)], b, NotEmptyAlternation);
    AllNodesSplice([Repetition([Terminal(sep)] + b)], ExitIteration, rest, NotEmptyAlternation);
  }

  // ===========================================================================
  // Definitions made of terminals and non-terminals only

  predicate FlatInvariant(q: PathState, name: string, total: nat)
  {
    q.inIteration == [] && q.inOption == [] && AllItems(q.def) &&
    OccurrencesSoFar(q.currResult, name) + CountNamed(q.def, name) == total
  }

  lemma FlatStep(q: PathState, name: string, total: nat)
    requires FlatInvariant(q, name, total)
    ensures forall s | s in Successors(q) :: FlatInvariant(s, name, total)
    ensures q.def != [] ==> Successors(q) == [PathState(q.def[1..], [], [], Counted(q.currResult, ItemName(q.def[0])))]
    ensures WritesName(q, name) ==>
      Written(q) == Write(name, Collection) && OccurrencesSoFar(q.currResult, name) >= 1 && CountNamed(q.def, name) >= 1
  {
    if q.def != [] {
      assert forall i | 0 <= i < |q.def| - 1 :: q.def[1..][i] == q.def[i + 1];
    }
  }

  /** In a definition made only of terminals and non-terminals, a name is a
      collection exactly when it occurs more than once; a name occurring once is
      never written and keeps `None`. */
  lemma FlatDefinition(d: seq<Production>, name: string)
    requires AllItems(d)
    requires name in VisitedNames(d)
    ensures name in DictionaryDef(d)
    ensures DictionaryDef(d)[name] == if CountNamed(d, name) > 1 then Collection else None
  {
    var total := CountNamed(d, name);
    var inv := (q: PathState) => FlatInvariant(q, name, total);
    forall q, s | inv(q) && s in Successors(q) ensures inv(s) {
      FlatStep(q, name, total);
    }
    if total > 1 {
      forall q | inv(q) && WritesName(q, name) ensures Written(q).value == Collection {
        FlatStep(q, name, total);
      }
      var pending := (q: PathState) => inv(q) && CountNamed(q.def, name) >= 1;
      forall q | pending(q) ensures WritesName(q, name) || exists s | s in Successors(q) :: pending(s) {
        FlatStep(q, name, total);
        var s := Successors(q)[0];
        assert s in Successors(q);
        assert CountNamed(q.def, name) == (if IsNamed(q.def[0], name) then 1 else 0) + CountNamed(s.def, name);
      }
      ClassifiedByInvariant(d, name, Collection, inv, pending);
    } else {
      forall q | inv(q) ensures !WritesName(q, name) {
        FlatStep(q, name, total);
      }
      UnwrittenByInvariant(d, name, inv);
    }
  }

  // ===========================================================================
  // Names inside iterations are collections

  /** The iteration depth after passing `p` at depth `depth`: only an
      `EXIT_ITERATION` sentinel changes it, and `dropRight` of an empty stack
      leaves it empty. */
  function DepthAfter(p: Production, depth: nat): nat
  {
    if p.ExitIteration? && depth > 0 then depth - 1 else depth
  }

  /** Explored at iteration depth `depth`, every terminal or non-terminal of `d`
      named `name` is met inside at least one iteration. */
  predicate Iterated(d: seq<Production>, name: string, depth: nat)
  {
    d == [] ||
    (ProductionIterated(d[0], name, depth) && Iterated(d[1..], name, DepthAfter(d[0], depth)))
  }

  predicate ProductionIterated(p: Production, name: string, depth: nat)
  {
    match p
    case Terminal(n) => n == name ==> depth > 0
    case NonTerminal(n) => n == name ==> depth > 0
    case Option(b) => Iterated(b, name, depth)
    case Repetition(b) => Iterated(b, name, depth + 1)
    case RepetitionMandatory(b) => Iterated(b, name, depth + 1)
    case RepetitionWithSeparator(b, _) => Iterated(b, name, depth + 1)
    case RepetitionMandatoryWithSeparator(b, _) => Iterated(b, name, depth + 1)
    case Alternation(alts) => forall j | 0 <= j < |alts| :: Iterated(alts[j].definition, name, depth)
    case _ => true
  }

  lemma {:induction false} IteratedAppend(a: seq<Production>, r: seq<Production>, name: string, depth: nat)
    requires Plain(a)
    ensures Iterated(a + r, name, depth) <==> Iterated(a, name, depth) && Iterated(r, name, depth)
  {
    if a == [] {
      assert a + r == r;
    } else {
      assert (a + r)[0] == a[0] && (a + r)[1..] == a[1..] + r;
      AllNodesTail(a, NotMarker);
      IteratedAppend(a[1..], r, name, depth);
    }
  }

  lemma {:induction false} IteratedDeeper(d: seq<Production>, name: string, depth: nat, deeper: nat)
    requires Iterated(d, name, depth) && depth <= deeper
    ensures Iterated(d, name, deeper)
  {
    if d != [] {
      ProductionIteratedDeeper(d[0], name, depth, deeper);
      IteratedDeeper(d[1..], name, DepthAfter(d[0], depth), DepthAfter(d[0], deeper));
    }
  }

  lemma {:induction false} ProductionIteratedDeeper(p: Production, name: string, depth: nat, deeper: nat)
    requires ProductionIterated(p, name, depth) && depth <= deeper
    ensures ProductionIterated(p, name, deeper)
  {
    match p
    case Option(b) => IteratedDeeper(b, name, depth, deeper);
    case Repetition(b) => IteratedDeeper(b, name, depth + 1, deeper + 1);
    case RepetitionMandatory(b) => IteratedDeeper(b, name, depth + 1, deeper + 1);
    case RepetitionWithSeparator(b, _) => IteratedDeeper(b, name, depth + 1, deeper + 1);
    case RepetitionMandatoryWithSeparator(b, _) => IteratedDeeper(b, name, depth + 1, deeper + 1);
    case Alternation(alts) =>
      forall j | 0 <= j < |alts| ensures Iterated(alts[j].definition, name, deeper) {
        IteratedDeeper(alts[j].definition, name, depth, deeper);
      }
    case _ =>
  }

  /** A name that is never visited (a separator only) is trivially iterated. */
  lemma {:induction false} UnvisitedIsIterated(d: seq<Production>, name: string, depth: nat)
    requires name !in VisitedNames(d)
    ensures Iterated(d, name, depth)
  {
    if d != [] {
      UnvisitedProductionIsIterated(d[0], name, depth);
      UnvisitedIsIterated(d[1..], name, DepthAfter(d[0], depth));
    }
  }

  lemma {:induction false} UnvisitedProductionIsIterated(p: Production, name: string, depth: nat)
    requires name !in ProductionNames(p, false)
    ensures ProductionIterated(p, name, depth)
  {
    match p
    case Option(b) => UnvisitedIsIterated(b, name, depth);
    case Repetition(b) => UnvisitedIsIterated(b, name, depth + 1);
    case RepetitionMandatory(b) => UnvisitedIsIterated(b, name, depth + 1);
    case RepetitionWithSeparator(b, _) => UnvisitedIsIterated(b, name, depth + 1);
    case RepetitionMandatoryWithSeparator(b, _) => UnvisitedIsIterated(b, name, depth + 1);
    case Alternation(alts) =>
      forall j | 0 <= j < |alts| ensures Iterated(alts[j].definition, name, depth) {
        AlternativeNamesAt(alts, j, false);
        UnvisitedIsIterated(alts[j].definition, name, depth);
      }
    case _ =>
  }

  predicate AllTrue(s: seq<bool>)
  {
    forall i | 0 <= i < |s| :: s[i]
  }

  /** Each production of a path's remaining definition is a sentinel or a user
      production without sentinels. */
  predicate NestedPlain(d: seq<Production>)
  {
    forall i | 0 <= i < |d| :: IsMarker(d[i]) || NodeAndBelow(d[i], NotMarker)
  }

  lemma NestedPlainSplice(b: seq<Production>, sentinel: Production, rest: seq<Production>)
    requires Plain(b) && IsMarker(sentinel) && NestedPlain(rest)
    ensures NestedPlain(b + [sentinel] + rest) && NestedPlain(b + rest)
  {
    forall i | 0 <= i < |b + [sentinel] + rest|
      ensures IsMarker((b + [sentinel] + rest)[i]) || NodeAndBelow((b + [sentinel] + rest)[i], NotMarker)
    {
      if i < |b| {
        assert (b + [sentinel] + rest)[i] == b[i];
      } else if i > |b| {
        assert (b + [sentinel] + rest)[i] == rest[i - |b| - 1];
      }
    }
    forall i | 0 <= i < |b + rest| ensures IsMarker((b + rest)[i]) || NodeAndBelow((b + rest)[i], NotMarker) {
      if i < |b| {
        assert (b + rest)[i] == b[i];
      } else {
        assert (b + rest)[i] == rest[i - |b|];
      }
    }
  }

  lemma IteratedSplice(b: seq<Production>, sentinel: Production, rest: seq<Production>, name: string, depth: nat)
    requires Plain(b) && IsMarker(sentinel)
    requires Iterated(b, name, depth) && Iterated(rest, name, DepthAfter(sentinel, depth))
    ensures Iterated(b + [sentinel] + rest, name, depth)
  {
    IteratedAppend(b, [sentinel] + rest, name, depth);
    assert ([sentinel] + rest)[0] == sentinel && ([sentinel] + rest)[1..] == rest;
    assert b + [sentinel] + rest == b + ([sentinel] + rest);
  }

  /** Inside iterations: every open iteration layer is `true`, and every
      remaining occurrence of the name lies inside an iteration. */
  predicate IterationInvariant(q: PathState, name: string)
  {
    AllTrue(q.inIteration) && NestedPlain(q.def) && Iterated(q.def, name, |q.inIteration|)
  }

  lemma IterationStep(q: PathState, name: string)
    requires IterationInvariant(q, name)
    ensures forall s | s in Successors(q) :: IterationInvariant(s, name)
    ensures q.def != [] && IsNamed(q.def[0], name) ==> Written(q) == Write(name, Collection)
  {
    if q.def != [] {
      var x, rest := q.def[0], q.def[1..];
      var it := q.inIteration;
      var k := |it|;
      assert ProductionIterated(x, name, k) && Iterated(rest, name, DepthAfter(x, k));
      assert NestedPlain(rest) by {
        assert forall i | 0 <= i < |rest| :: rest[i] == q.def[i + 1];
      }
      assert IsMarker(x) || NodeAndBelow(x, NotMarker);
      match x
      case ExitIteration =>
        assert forall i | 0 <= i < |DropRight(it)| :: DropRight(it)[i] == it[i];
      case ExitOption =>
      case Terminal(n) =>
      case NonTerminal(n) =>
      case Option(b) =>
        NestedPlainSplice(b, ExitOption, rest);
        IteratedSplice(b, ExitOption, rest, name, k);
      case Repetition(b) =>
        NestedPlainSplice(b, ExitIteration, rest);
        IteratedSplice(b, ExitIteration, rest, name, k + 1);
      case RepetitionMandatory(b) =>
        NestedPlainSplice(b, ExitIteration, rest);
        IteratedSplice(b, ExitIteration, rest, name, k + 1);
      case RepetitionWithSeparator(b, sep) =>
        SeparatedIterationStep(b, sep, rest, name, k);
      case RepetitionMandatoryWithSeparator(b, sep) =>
        SeparatedIterationStep(b, sep, rest, name, k);
      case Alternation(alts) =>
        IterationAlternativesStep(alts, rest, it, q.currResult, name);
    }
  }

  /** Every alternative's path keeps the name iterated. */
  lemma IterationAlternativesStep(alts: seq<Flat>, rest: seq<Production>, it: seq<bool>,
                                  counts: map<string, nat>, name: string)
    requires NodeAndBelow(Alternation(alts), NotMarker) && NestedPlain(rest) && AllTrue(it)
    requires ProductionIterated(Alternation(alts), name, |it|) && Iterated(rest, name, |it|)
    ensures forall s | s in AlternativePaths(alts, rest, it, counts) :: IterationInvariant(s, name)
  {
    var r := AlternativePaths(alts, rest, it, counts);
    forall j | 0 <= j < |alts| ensures IterationInvariant(r[j], name) {
      var alt := alts[|alts| - 1 - j].definition;
      NestedPlainSplice(alt, ExitOption, rest);
      IteratedSplice(alt, ExitOption, rest, name, |it|);
      IteratedAppend(alt, rest, name, |it|);
    }
  }

  lemma SeparatedIterationStep(b: seq<Production>, sep: string, rest: seq<Production>, name: string, k: nat)
    requires Plain(b) && NestedPlain(rest)
    requires Iterated(b, name, k + 1) && Iterated(rest, name, k)
    ensures NestedPlain(SeparatedRewrite(b, sep) + rest)
    ensures Iterated(SeparatedRewrite(b, sep) + rest, name, k + 1)
  {
    var c := [Terminal(sep)] + b;
    SeparatedRewriteShape(b, sep, rest);
    AllNodesAppend([Terminal(sep)], b, NotMarker);
    IteratedDeeper(b, name, k + 1, k + 2);
    assert c[0] == Terminal(sep) && c[1..] == b;
    assert ProductionIterated(c[0], name, k + 2);
    assert Iterated(c, name, k + 2);
    assert [Repetition(c)][0] == Repetition(c) && [Repetition(c)][1..] == [];
    assert Iterated([Repetition(c)], name, k + 1);
    assert Plain([Repetition(c)]);
    NestedPlainSplice([Repetition(c)], ExitIteration, rest);
    IteratedSplice([Repetition(c)], ExitIteration, rest, name, k + 1);
  }

  /** A name all of whose occurrences lie inside a repetition (at any depth) is a
      collection; this includes the separator of a separated repetition. */
  lemma CollectionInsideIteration(d: seq<Production>, name: string)
    requires Plain(d) && NoEmptyAlternation(d)
    requires name in MentionedNames(d) && Iterated(d, name, 0)
    ensures name in DictionaryDef(d) && DictionaryDef(d)[name] == Collection
  {
    var inv := (q: PathState) => IterationInvariant(q, name);
    var pending := (q: PathState) => inv(q) && NoEmptyAlternation(q.def) && name in MentionedNames(q.def);
    assert inv(InitialPath(d));
    forall q, s | inv(q) && s in Successors(q) ensures inv(s) {
      IterationStep(q, name);
    }
    forall q | inv(q) && WritesName(q, name) ensures Written(q).value == Collection {
      IterationStep(q, name);
    }
    forall q | pending(q) ensures WritesName(q, name) || exists s | s in Successors(q) :: pending(s) {
      IterationStep(q, name);
      if !IsNamed(q.def[0], name) {
        var s := MentionProgress(q, name);
        IterationStep(q, name);
      }
    }
    ClassifiedByInvariant(d, name, Collection, inv, pending);
  }

  /** A separator that is not also used as a terminal is a collection: it is only
      ever met at the head of the rewritten repetition. */
  lemma SeparatorIsCollection(d: seq<Production>, name: string)
    requires Plain(d) && NoEmptyAlternation(d)
    requires name in MentionedNames(d) && name !in VisitedNames(d)
    ensures name in DictionaryDef(d) && DictionaryDef(d)[name] == Collection
  {
    UnvisitedIsIterated(d, name, 0);
    CollectionInsideIteration(d, name);
  }

  /** In a well-formed definition every terminal, non-terminal and separator gets
      an entry, and nothing else does. */
  lemma DictionaryDefKeysExact(d: seq<Production>)
    requires Plain(d) && NoEmptyAlternation(d)
    ensures DictionaryDef(d).Keys == MentionedNames(d)
  {
    DictionaryDefKeys(d);
    forall name | name in MentionedNames(d) ensures name in DictionaryDef(d) {
      if name !in VisitedNames(d) {
        SeparatorIsCollection(d, name);
      }
    }
  }

  // ===========================================================================
  // A name reached through one top-level option or alternation

  /** `d` is a run of other terminals and non-terminals, then the one occurrence of
      `name`, then productions that do not mention `name`. */
  predicate OnceAfterItems(d: seq<Production>, name: string)
  {
    d != [] && IsItem(d[0]) &&
    if IsNamed(d[0], name) then name !in MentionedNames(d[1..]) else OnceAfterItems(d[1..], name)
  }

  lemma {:induction false} OnceAfterItemsNames(d: seq<Production>, name: string)
    requires OnceAfterItems(d, name)
    ensures name in VisitedNames(d) && name in MentionedNames(d)
  {
    assert Names(d, false) == ProductionNames(d[0], false) + Names(d[1..], false);
    assert Names(d, true) == ProductionNames(d[0], true) + Names(d[1..], true);
    if !IsNamed(d[0], name) {
      OnceAfterItemsNames(d[1..], name);
    }
  }

  lemma {:induction false} OnceAfterItemsAppend(d: seq<Production>, r: seq<Production>, name: string)
    requires OnceAfterItems(d, name) && name !in MentionedNames(r)
    ensures OnceAfterItems(d + r, name)
  {
    assert (d + r)[0] == d[0] && (d + r)[1..] == d[1..] + r;
    NamesAppend(d[1..], r, true);
    if !IsNamed(d[0], name) {
      OnceAfterItemsAppend(d[1..], r, name);
    }
  }

  /** Where the one construct mentioning the name sits. */
  datatype Site = InOption | InAlternatives | InSingleAlternative

  /** `p` is the construct of kind `site` through which `name` is reached. */
  predicate AtSite(site: Site, p: Production, name: string)
  {
    match site
    case InOption => p.Option? && OnceAfterItems(p.definition, name)
    case InAlternatives =>
      p.Alternation? && |p.alternatives| > 1 &&
      forall j | 0 <= j < |p.alternatives| ::
        name in MentionedNames(p.alternatives[j].definition) ==> OnceAfterItems(p.alternatives[j].definition, name)
    case InSingleAlternative =>
      p.Alternation? && |p.alternatives| == 1 && OnceAfterItems(p.alternatives[0].definition, name)
  }

  /** Explored at iteration depth `depth`, `d` reaches the one construct that
      mentions `name` outside every iteration, and nothing after it mentions `name`. */
  predicate Ahead(d: seq<Production>, name: string, depth: nat, site: Site)
  {
    d != [] &&
    if name in ProductionNames(d[0], true) then
      AtSite(site, d[0], name) && depth == 0 && name !in MentionedNames(d[1..])
    else Ahead(d[1..], name, DepthAfter(d[0], depth), site)
  }

  lemma {:induction false} AheadSkip(a: seq<Production>, r: seq<Production>, name: string, depth: nat, site: Site)
    requires Plain(a) && name !in MentionedNames(a) && Ahead(r, name, depth, site)
    ensures Ahead(a + r, name, depth, site)
  {
    if a == [] {
      assert a + r == r;
    } else {
      assert (a + r)[0] == a[0] && (a + r)[1..] == a[1..] + r;
      AllNodesTail(a, NotMarker);
      AheadSkip(a[1..], r, name, depth, site);
    }
  }

  lemma AheadSplice(b: seq<Production>, sentinel: Production, rest: seq<Production>,
                    name: string, depth: nat, site: Site)
    requires Plain(b) && IsMarker(sentinel) && name !in MentionedNames(b)
    requires Ahead(rest, name, DepthAfter(sentinel, depth), site)
    ensures Ahead(b + [sentinel] + rest, name, depth, site)
  {
    assert ([sentinel] + rest)[0] == sentinel && ([sentinel] + rest)[1..] == rest;
    AheadSkip(b, [sentinel] + rest, name, depth, site);
    assert b + [sentinel] + rest == b + ([sentinel] + rest);
  }

  /** The option stack the site leaves for the name: a multi-branch alternation
      and an option push `true`; a single-branch alternation copies the (empty)
      iteration stack. */
  predicate OptionContext(site: Site, inOption: seq<bool>)
  {
    if site == InSingleAlternative then inOption == [] else Last(inOption)
  }

  /** Before the site, inside it ahead of the name, or past the name. */
  predicate SiteInvariant(q: PathState, name: string, site: Site)
  {
    (NestedPlain(q.def) && Ahead(q.def, name, |q.inIteration|, site) && OccurrencesSoFar(q.currResult, name) == 0) ||
    (OnceAfterItems(q.def, name) && q.inIteration == [] && OptionContext(site, q.inOption) &&
     OccurrencesSoFar(q.currResult, name) == 0) ||
    name !in MentionedNames(q.def)
  }

  /** The write the name receives at its one occurrence. */
  function SiteWrite(site: Site, name: string): ResultWrite
  {
    if site == InSingleAlternative then NoWrite else Write(name, Optional)
  }

  lemma SiteStep(q: PathState, name: string, site: Site)
    requires SiteInvariant(q, name, site)
    ensures forall s | s in Successors(q) :: SiteInvariant(s, name, site)
    ensures q.def != [] && IsNamed(q.def[0], name) ==> Written(q) == SiteWrite(site, name)
  {
    SuccessorsMentionFewer(q);
    if name !in MentionedNames(q.def) {
      if q.def != [] {
        assert MentionedNames(q.def) == ProductionNames(q.def[0], true) + MentionedNames(q.def[1..]);
      }
    } else if NestedPlain(q.def) && Ahead(q.def, name, |q.inIteration|, site) &&
              OccurrencesSoFar(q.currResult, name) == 0 {
      AheadStep(q, name, site);
    } else {
      assert OnceAfterItems(q.def, name);
    }
  }

  lemma AheadStep(q: PathState, name: string, site: Site)
    requires NestedPlain(q.def) && Ahead(q.def, name, |q.inIteration|, site)
    requires OccurrencesSoFar(q.currResult, name) == 0
    ensures forall s | s in Successors(q) :: SiteInvariant(s, name, site)
    ensures !IsNamed(q.def[0], name)
  {
    var x, rest := q.def[0], q.def[1..];
    var it, k := q.inIteration, |q.inIteration|;
    assert NestedPlain(rest) by {
      assert forall i | 0 <= i < |rest| :: rest[i] == q.def[i + 1];
    }
    assert IsMarker(x) || NodeAndBelow(x, NotMarker);
    if name in ProductionNames(x, true) {
      AtSiteStep(q, name, site);
    } else {
      AheadPastStep(q, name, site);
    }
  }

  /** A production ahead of the site that does not mention the name: its
      successors keep the site ahead. */
  lemma AheadPastStep(q: PathState, name: string, site: Site)
    requires NestedPlain(q.def) && Ahead(q.def, name, |q.inIteration|, site)
    requires OccurrencesSoFar(q.currResult, name) == 0
    requires name !in ProductionNames(q.def[0], true)
    ensures forall s | s in Successors(q) :: SiteInvariant(s, name, site)
  {
    var x, rest := q.def[0], q.def[1..];
    var it, k := q.inIteration, |q.inIteration|;
    assert NestedPlain(rest) by {
      assert forall i | 0 <= i < |rest| :: rest[i] == q.def[i + 1];
    }
    assert IsMarker(x) || NodeAndBelow(x, NotMarker);
    match x
    case ExitIteration =>
    case ExitOption =>
    case Terminal(n) =>
    case NonTerminal(n) =>
    case Option(_) | Repetition(_) | RepetitionMandatory(_) =>
      AheadEnterStep(q, name, site);
    case RepetitionWithSeparator(b, sep) =>
      SeparatedAheadStep(b, sep, rest, name, k, site);
    case RepetitionMandatoryWithSeparator(b, sep) =>
      SeparatedAheadStep(b, sep, rest, name, k, site);
    case Alternation(alts) =>
      AheadAlternativesStep(alts, rest, it, q.currResult, name, site);
  }

  /** Entering an option or a repetition ahead of the site keeps the site ahead. */
  lemma AheadEnterStep(q: PathState, name: string, site: Site)
    requires NestedPlain(q.def) && Ahead(q.def, name, |q.inIteration|, site)
    requires OccurrencesSoFar(q.currResult, name) == 0
    requires name !in ProductionNames(q.def[0], true)
    requires q.def[0].Option? || q.def[0].Repetition? || q.def[0].RepetitionMandatory?
    ensures forall s | s in Successors(q) :: SiteInvariant(s, name, site)
  {
    var x, rest := q.def[0], q.def[1..];
    var k := |q.inIteration|;
    assert NestedPlain(rest) by {
      assert forall i | 0 <= i < |rest| :: rest[i] == q.def[i + 1];
    }
    assert NodeAndBelow(x, NotMarker);
    match x
    case Option(b) =>
      NestedPlainSplice(b, ExitOption, rest);
      AheadSplice(b, ExitOption, rest, name, k, site);
    case Repetition(b) =>
      NestedPlainSplice(b, ExitIteration, rest);
      AheadSplice(b, ExitIteration, rest, name, k + 1, site);
    case RepetitionMandatory(b) =>
      NestedPlainSplice(b, ExitIteration, rest);
      AheadSplice(b, ExitIteration, rest, name, k + 1, site);
  }

  /** An alternation that does not mention the name keeps the site ahead on every
      alternative's path. */
  lemma AheadAlternativesStep(alts: seq<Flat>, rest: seq<Production>, it: seq<bool>,
                              counts: map<string, nat>, name: string, site: Site)
    requires NodeAndBelow(Alternation(alts), NotMarker) && NestedPlain(rest)
    requires name !in AlternativesNames(alts, true) && Ahead(rest, name, |it|, site)
    requires OccurrencesSoFar(counts, name) == 0
    ensures forall s | s in AlternativePaths(alts, rest, it, counts) :: SiteInvariant(s, name, site)
  {
    var r := AlternativePaths(alts, rest, it, counts);
    forall j | 0 <= j < |alts| ensures SiteInvariant(r[j], name, site) {
      var alt := alts[|alts| - 1 - j].definition;
      AlternativeNamesAt(alts, |alts| - 1 - j, true);
      NestedPlainSplice(alt, ExitOption, rest);
      AheadSplice(alt, ExitOption, rest, name, |it|, site);
      AheadSkip(alt, rest, name, |it|, site);
    }
  }

  lemma SeparatedAheadStep(b: seq<Production>, sep: string, rest: seq<Production>, name: string, k: nat, site: Site)
    requires Plain(b) && NestedPlain(rest)
    requires name != sep && name !in MentionedNames(b) && Ahead(rest, name, k, site)
    ensures NestedPlain(SeparatedRewrite(b, sep) + rest)
    ensures Ahead(SeparatedRewrite(b, sep) + rest, name, k + 1, site)
  {
    var c := [Terminal(sep)] + b;
    SeparatedRewriteShape(b, sep, rest);
    AllNodesAppend([Terminal(sep)], b, NotMarker);
    NamesAppend([Terminal(sep)], b, true);
    assert Plain([Repetition(c)]);
    assert [Repetition(c)][0] == Repetition(c) && [Repetition(c)][1..] == [];
    assert Names([Repetition(c)], true) == ProductionNames(Repetition(c), true) + Names([], true);
    NestedPlainSplice([Repetition(c)], ExitIteration, rest);
    AheadSplice([Repetition(c)], ExitIteration, rest, name, k + 1, site);
  }

  /** Entering the site itself. */
  lemma AtSiteStep(q: PathState, name: string, site: Site)
    requires q.def != [] && name in ProductionNames(q.def[0], true)
    requires AtSite(site, q.def[0], name) && |q.inIteration| == 0 && name !in MentionedNames(q.def[1..])
    requires OccurrencesSoFar(q.currResult, name) == 0
    ensures forall s | s in Successors(q) :: SiteInvariant(s, name, site)
  {
    var rest := q.def[1..];
    assert name !in MentionedNames([ExitOption] + rest) by {
      assert ([ExitOption] + rest)[0] == ExitOption && ([ExitOption] + rest)[1..] == rest;
      assert Names([ExitOption] + rest, true) == ProductionNames(ExitOption, true) + Names(rest, true);
    }
    match q.def[0]
    case Option(b) =>
      OnceAfterItemsAppend(b, [ExitOption] + rest, name);
      assert b + [ExitOption] + rest == b + ([ExitOption] + rest);
    case Alternation(alts) =>
      AtSiteAlternativesStep(alts, rest, q.inIteration, q.currResult, name, site);
  }

  /** Entering the alternation that is the site: every alternative that mentions
      the name reaches it through items. */
  lemma AtSiteAlternativesStep(alts: seq<Flat>, rest: seq<Production>, it: seq<bool>,
                               counts: map<string, nat>, name: string, site: Site)
    requires AtSite(site, Alternation(alts), name) && it == []
    requires name !in MentionedNames(rest) && name !in MentionedNames([ExitOption] + rest)
    requires OccurrencesSoFar(counts, name) == 0
    ensures forall s | s in AlternativePaths(alts, rest, it, counts) :: SiteInvariant(s, name, site)
  {
    var r := AlternativePaths(alts, rest, it, counts);
    forall j | 0 <= j < |alts| ensures SiteInvariant(r[j], name, site) {
      var alt := alts[|alts| - 1 - j].definition;
      if name in MentionedNames(alt) {
        OnceAfterItemsAppend(alt, [ExitOption] + rest, name);
        assert alt + [ExitOption] + rest == alt + ([ExitOption] + rest);
        OnceAfterItemsAppend(alt, rest, name);
      } else {
        BodyThenSentinelNames(alt, ExitOption, rest);
        NamesAppend(alt, rest, true);
      }
    }
  }

  /** The classification of a name reached through one site at the top level of
      a rule. */
  lemma SiteClassification(d: seq<Production>, name: string, site: Site)
    requires Plain(d) && NoEmptyAlternation(d) && Ahead(d, name, 0, site)
    ensures name in DictionaryDef(d)
    ensures DictionaryDef(d)[name] == if site == InSingleAlternative then None else Optional
  {
    var inv := (q: PathState) => SiteInvariant(q, name, site);
    assert inv(InitialPath(d));
    forall q, s | inv(q) && s in Successors(q) ensures inv(s) {
      SiteStep(q, name, site);
    }
    if site == InSingleAlternative {
      forall q | inv(q) ensures !WritesName(q, name) {
        SiteStep(q, name, site);
      }
      UnwrittenByInvariant(d, name, inv);
      DictionaryDefKeysExact(d);
      AheadMentions(d, name, 0, site);
    } else {
      forall q | inv(q) && WritesName(q, name) ensures Written(q).value == Optional {
        SiteStep(q, name, site);
      }
      var pending := (q: PathState) => inv(q) && NoEmptyAlternation(q.def) && name in MentionedNames(q.def);
      AheadMentions(d, name, 0, site);
      forall q | pending(q) ensures WritesName(q, name) || exists s | s in Successors(q) :: pending(s) {
        SiteStep(q, name, site);
        if !IsNamed(q.def[0], name) {
          var s := MentionProgress(q, name);
        }
      }
      ClassifiedByInvariant(d, name, Optional, inv, pending);
    }
  }

  lemma {:induction false} AheadMentions(d: seq<Production>, name: string, depth: nat, site: Site)
    requires Ahead(d, name, depth, site)
    ensures name in MentionedNames(d)
  {
    if name !in ProductionNames(d[0], true) {
      AheadMentions(d[1..], name, DepthAfter(d[0], depth), site);
    }
  }

  /** `OPTION(body)` at the top level of a rule, where `body` reaches the name's one
      occurrence through plain terminals and non-terminals: the name is optional. */
  lemma OptionalInTopLevelOption(pre: seq<Production>, body: seq<Production>, post: seq<Production>, name: string)
    requires Plain(pre + [Option(body)] + post) && NoEmptyAlternation(pre + [Option(body)] + post)
    requires name !in MentionedNames(pre) && name !in MentionedNames(post)
    requires OnceAfterItems(body, name)
    ensures name in DictionaryDef(pre + [Option(body)] + post)
    ensures DictionaryDef(pre + [Option(body)] + post)[name] == Optional
  {
    OnceAfterItemsNames(body, name);
    SiteAtTop(pre, Option(body), post, name, InOption);
    SiteClassification(pre + [Option(body)] + post, name, InOption);
  }

  /** An alternation of two or more alternatives at the top level of a rule, each
      alternative either not mentioning the name or reaching its one occurrence
      through plain items: the name is optional, even when several alternatives
      contain it. */
  lemma OptionalInTopLevelAlternation(pre: seq<Production>, alts: seq<Flat>, post: seq<Production>, name: string)
    requires Plain(pre + [Alternation(alts)] + post) && NoEmptyAlternation(pre + [Alternation(alts)] + post)
    requires name !in MentionedNames(pre) && name !in MentionedNames(post)
    requires |alts| > 1 && name in AlternativesNames(alts, true)
    requires forall j | 0 <= j < |alts| ::
      name in MentionedNames(alts[j].definition) ==> OnceAfterItems(alts[j].definition, name)
    ensures name in DictionaryDef(pre + [Alternation(alts)] + post)
    ensures DictionaryDef(pre + [Alternation(alts)] + post)[name] == Optional
  {
    SiteAtTop(pre, Alternation(alts), post, name, InAlternatives);
    SiteClassification(pre + [Alternation(alts)] + post, name, InAlternatives);
  }

  /** An alternation with a single alternative adds no option layer and resets the
      option stack to the iteration stack: at the top level of a rule, a name it
      reaches through plain items keeps `None`. */
  lemma NoneInSingleAlternative(pre: seq<Production>, body: seq<Production>, post: seq<Production>, name: string)
    requires Plain(pre + [Alternation([Flat(body)])] + post)
    requires NoEmptyAlternation(pre + [Alternation([Flat(body)])] + post)
    requires name !in MentionedNames(pre) && name !in MentionedNames(post)
    requires OnceAfterItems(body, name)
    ensures name in DictionaryDef(pre + [Alternation([Flat(body)])] + post)
    ensures DictionaryDef(pre + [Alternation([Flat(body)])] + post)[name] == None
  {
    OnceAfterItemsNames(body, name);
    assert AlternativesNames([Flat(body)], true) == MentionedNames(body);
    SiteAtTop(pre, Alternation([Flat(body)]), post, name, InSingleAlternative);
    SiteClassification(pre + [Alternation([Flat(body)])] + post, name, InSingleAlternative);
  }

  lemma SiteAtTop(pre: seq<Production>, x: Production, post: seq<Production>, name: string, site: Site)
    requires Plain(pre + [x] + post)
    requires name !in MentionedNames(pre) && name !in MentionedNames(post)
    requires name in ProductionNames(x, true) && AtSite(site, x, name)
    ensures Ahead(pre + [x] + post, name, 0, site)
  {
    AllNodesAppend(pre, [x], NotMarker);
    AllNodesAppend(pre + [x], post, NotMarker);
    assert ([x] + post)[0] == x && ([x] + post)[1..] == post;
    AheadSkip(pre, [x] + post, name, 0, site);
    assert pre + [x] + post == pre + ([x] + post);
  }

  // ===========================================================================
  // A name used once at the top level of a rule

  predicate NotOptionLike(p: Production)
  {
    !p.Option? && !p.Alternation?
  }

  /** No option or alternation sits inside a repetition of `d`. Such a construct
      pushes an option layer on top of a non-empty iteration stack, and the layer
      it leaves behind outlives the repetition. */
  predicate OptionsOutsideIterations(d: seq<Production>)
  {
    forall i | 0 <= i < |d| :: ProductionOptionsOutside(d[i])
  }

  predicate ProductionOptionsOutside(p: Production)
  {
    match p
    case Option(b) => OptionsOutsideIterations(b)
    case Alternation(alts) => forall j | 0 <= j < |alts| :: OptionsOutsideIterations(alts[j].definition)
    case Repetition(b) => AllNodes(b, NotOptionLike)
    case RepetitionMandatory(b) => AllNodes(b, NotOptionLike)
    case RepetitionWithSeparator(b, _) => AllNodes(b, NotOptionLike)
    case RepetitionMandatoryWithSeparator(b, _) => AllNodes(b, NotOptionLike)
    case _ => true
  }

  /** Explored at iteration depth `depth` with `open` option layers, `d` reaches
      `name` as a plain item with both stacks empty, and nothing after it mentions
      `name`. An option or alternation met on the way must be outside every
      iteration; it leaves the option stack empty behind it. */
  predicate TopAhead(d: seq<Production>, name: string, depth: nat, open: nat)
  {
    d != [] &&
    if IsNamed(d[0], name) then depth == 0 && open == 0 && name !in MentionedNames(d[1..])
    else
      name !in ProductionNames(d[0], true) &&
      match d[0]
      case ExitIteration => TopAhead(d[1..], name, if depth > 0 then depth - 1 else 0, open)
      case ExitOption => TopAhead(d[1..], name, depth, if open > 0 then open - 1 else 0)
      case Option(b) => depth == 0 && OptionsOutsideIterations(b) && TopAhead(d[1..], name, 0, 0)
      case Alternation(alts) =>
        depth == 0 && (forall j | 0 <= j < |alts| :: OptionsOutsideIterations(alts[j].definition)) &&
        TopAhead(d[1..], name, 0, 0)
      case Repetition(b) => AllNodes(b, NotOptionLike) && TopAhead(d[1..], name, depth, open)
      case RepetitionMandatory(b) => AllNodes(b, NotOptionLike) && TopAhead(d[1..], name, depth, open)
      case RepetitionWithSeparator(b, _) => AllNodes(b, NotOptionLike) && TopAhead(d[1..], name, depth, open)
      case RepetitionMandatoryWithSeparator(b, _) => AllNodes(b, NotOptionLike) && TopAhead(d[1..], name, depth, open)
      case _ => TopAhead(d[1..], name, depth, open)
  }

  lemma {:induction false} TopAheadFewerOpen(d: seq<Production>, name: string, depth: nat, open: nat, fewer: nat)
    requires TopAhead(d, name, depth, open) && fewer <= open
    ensures TopAhead(d, name, depth, fewer)
  {
    if !IsNamed(d[0], name) {
      match d[0]
      case ExitIteration => TopAheadFewerOpen(d[1..], name, if depth > 0 then depth - 1 else 0, open, fewer);
      case ExitOption =>
        TopAheadFewerOpen(d[1..], name, depth, if open > 0 then open - 1 else 0, if fewer > 0 then fewer - 1 else 0);
      case Option(_) =>
      case Alternation(_) =>
      case _ => TopAheadFewerOpen(d[1..], name, depth, open, fewer);
    }
  }

  /** Skipping user productions without options, at any depth. */
  lemma {:induction false} TopAheadSkipPlain(a: seq<Production>, r: seq<Production>, name: string, depth: nat, open: nat)
    requires Plain(a) && AllNodes(a, NotOptionLike) && name !in MentionedNames(a)
    requires TopAhead(r, name, depth, open)
    ensures TopAhead(a + r, name, depth, open)
  {
    if a == [] {
      assert a + r == r;
    } else {
      assert (a + r)[0] == a[0] && (a + r)[1..] == a[1..] + r;
      AllNodesTail(a, NotMarker);
      AllNodesTail(a, NotOptionLike);
      assert Names(a, true) == ProductionNames(a[0], true) + Names(a[1..], true);
      TopAheadSkipPlain(a[1..], r, name, depth, open);
    }
  }

  /** Skipping user productions at the top level, where options may appear. */
  lemma {:induction false} TopAheadSkipTop(a: seq<Production>, r: seq<Production>, name: string, open: nat)
    requires Plain(a) && OptionsOutsideIterations(a) && name !in MentionedNames(a)
    requires TopAhead(r, name, 0, open)
    ensures TopAhead(a + r, name, 0, open)
  {
    if a == [] {
      assert a + r == r;
    } else {
      assert (a + r)[0] == a[0] && (a + r)[1..] == a[1..] + r;
      AllNodesTail(a, NotMarker);
      assert OptionsOutsideIterations(a[1..]) by {
        assert forall i | 0 <= i < |a| - 1 :: a[1..][i] == a[i + 1];
      }
      assert ProductionOptionsOutside(a[0]);
      assert Names(a, true) == ProductionNames(a[0], true) + Names(a[1..], true);
      if a[0].Option? || a[0].Alternation? {
        TopAheadFewerOpen(r, name, 0, open, 0);
        TopAheadSkipTop(a[1..], r, name, 0);
      } else {
        TopAheadSkipTop(a[1..], r, name, open);
      }
    }
  }

  /** Before the name, or past it. */
  predicate TopInvariant(q: PathState, name: string)
  {
    (NestedPlain(q.def) && TopAhead(q.def, name, |q.inIteration|, |q.inOption|) &&
     OccurrencesSoFar(q.currResult, name) == 0) ||
    name !in MentionedNames(q.def)
  }

  lemma TopStep(q: PathState, name: string)
    requires TopInvariant(q, name)
    ensures forall s | s in Successors(q) :: TopInvariant(s, name)
    ensures !WritesName(q, name)
  {
    SuccessorsMentionFewer(q);
    if name in MentionedNames(q.def) {
      var x, rest := q.def[0], q.def[1..];
      var it, k, o := q.inIteration, |q.inIteration|, |q.inOption|;
      assert NestedPlain(rest) by {
        assert forall i | 0 <= i < |rest| :: rest[i] == q.def[i + 1];
      }
      assert IsMarker(x) || NodeAndBelow(x, NotMarker);
      if !IsNamed(x, name) {
        match x
        case ExitIteration =>
        case ExitOption =>
        case Terminal(n) =>
        case NonTerminal(n) =>
        case Option(b) =>
          NestedPlainSplice(b, ExitOption, rest);
          TopSplice(b, ExitOption, rest, name);
        case Repetition(b) =>
          NestedPlainSplice(b, ExitIteration, rest);
          TopSpliceIteration(b, rest, name, k, o);
        case RepetitionMandatory(b) =>
          NestedPlainSplice(b, ExitIteration, rest);
          TopSpliceIteration(b, rest, name, k, o);
        case RepetitionWithSeparator(b, sep) =>
          SeparatedTopStep(b, sep, rest, name, k, o);
        case RepetitionMandatoryWithSeparator(b, sep) =>
          SeparatedTopStep(b, sep, rest, name, k, o);
        case Alternation(alts) =>
          TopAlternativesStep(alts, rest, it, q.currResult, name);
      }
    } else if q.def != [] {
      assert MentionedNames(q.def) == ProductionNames(q.def[0], true) + MentionedNames(q.def[1..]);
    }
  }

  /** An alternation before the name, outside every iteration, keeps the name
      ahead on every alternative's path, with one option layer open. */
  lemma TopAlternativesStep(alts: seq<Flat>, rest: seq<Production>, it: seq<bool>,
                            counts: map<string, nat>, name: string)
    requires NodeAndBelow(Alternation(alts), NotMarker) && NestedPlain(rest)
    requires name !in AlternativesNames(alts, true) && |it| == 0 && TopAhead(rest, name, 0, 0)
    requires forall j | 0 <= j < |alts| :: OptionsOutsideIterations(alts[j].definition)
    requires OccurrencesSoFar(counts, name) == 0
    ensures forall s | s in AlternativePaths(alts, rest, it, counts) :: TopInvariant(s, name)
  {
    var r := AlternativePaths(alts, rest, it, counts);
    forall j | 0 <= j < |alts| ensures TopInvariant(r[j], name) {
      var alt := alts[|alts| - 1 - j].definition;
      AlternativeNamesAt(alts, |alts| - 1 - j, true);
      NestedPlainSplice(alt, ExitOption, rest);
      TopSplice(alt, ExitOption, rest, name);
      TopAheadSkipTop(alt, rest, name, 0);
    }
  }

  lemma TopSplice(b: seq<Production>, sentinel: Production, rest: seq<Production>, name: string)
    requires sentinel == ExitOption && Plain(b) && OptionsOutsideIterations(b) && name !in MentionedNames(b)
    requires TopAhead(rest, name, 0, 0)
    ensures TopAhead(b + [sentinel] + rest, name, 0, 1)
  {
    assert ([sentinel] + rest)[0] == sentinel && ([sentinel] + rest)[1..] == rest;
    TopAheadSkipTop(b, [sentinel] + rest, name, 1);
    assert b + [sentinel] + rest == b + ([sentinel] + rest);
  }

  lemma TopSpliceIteration(b: seq<Production>, rest: seq<Production>, name: string, depth: nat, open: nat)
    requires Plain(b) && AllNodes(b, NotOptionLike) && name !in MentionedNames(b)
    requires TopAhead(rest, name, depth, open)
    ensures TopAhead(b + [ExitIteration] + rest, name, depth + 1, open)
  {
    assert ([ExitIteration] + rest)[0] == ExitIteration && ([ExitIteration] + rest)[1..] == rest;
    TopAheadSkipPlain(b, [ExitIteration] + rest, name, depth + 1, open);
    assert b + [ExitIteration] + rest == b + ([ExitIteration] + rest);
  }

  lemma SeparatedTopStep(b: seq<Production>, sep: string, rest: seq<Production>, name: string, k: nat, o: nat)
    requires Plain(b) && AllNodes(b, NotOptionLike) && NestedPlain(rest)
    requires name != sep && name !in MentionedNames(b) && TopAhead(rest, name, k, o)
    ensures NestedPlain(SeparatedRewrite(b, sep) + rest)
    ensures TopAhead(SeparatedRewrite(b, sep) + rest, name, k + 1, o)
  {
    var c := [Terminal(sep)] + b;
    SeparatedRewriteShape(b, sep, rest);
    AllNodesAppend([Terminal(sep)], b, NotMarker);
    AllNodesAppend([Terminal(sep)], b, NotOptionLike);
    NamesAppend([Terminal(sep)], b, true);
    assert Plain([Repetition(c)]);
    assert [Repetition(c)][0] == Repetition(c) && [Repetition(c)][1..] == [];
    assert Names([Repetition(c)], true) == ProductionNames(Repetition(c), true) + Names([], true);
    NestedPlainSplice([Repetition(c)], ExitIteration, rest);
    assert NodeAndBelow(Repetition(c), NotOptionLike);
    TopSpliceIteration([Repetition(c)], rest, name, k, o);
  }

  /** A terminal or non-terminal used once, at the top level of a rule, after
      productions that open no option inside a repetition: nothing is written and
      the name keeps `None`. */
  lemma NoneAtTopLevel(pre: seq<Production>, item: Production, post: seq<Production>)
    requires IsItem(item) && Plain(pre + [item] + post)
    requires OptionsOutsideIterations(pre)
    requires ItemName(item) !in MentionedNames(pre) && ItemName(item) !in MentionedNames(post)
    ensures ItemName(item) in DictionaryDef(pre + [item] + post)
    ensures DictionaryDef(pre + [item] + post)[ItemName(item)] == None
  {
    var d, name := pre + [item] + post, ItemName(item);
    TopLevelStart(pre, item, post);
    var inv := (q: PathState) => TopInvariant(q, name);
    assert inv(InitialPath(d));
    forall q, s | inv(q) && s in Successors(q) ensures inv(s) {
      TopStep(q, name);
    }
    forall q | inv(q) ensures !WritesName(q, name) {
      TopStep(q, name);
    }
    UnwrittenByInvariant(d, name, inv);
  }

  /** The initial path of such a rule satisfies the top-level invariant, and the
      item's name is visited. */
  lemma TopLevelStart(pre: seq<Production>, item: Production, post: seq<Production>)
    requires IsItem(item) && Plain(pre + [item] + post)
    requires OptionsOutsideIterations(pre)
    requires ItemName(item) !in MentionedNames(pre) && ItemName(item) !in MentionedNames(post)
    ensures TopInvariant(InitialPath(pre + [item] + post), ItemName(item))
    ensures ItemName(item) in VisitedNames(pre + [item] + post)
  {
    TopLevelAhead(pre, item, post);
    assert pre + [item] + post == pre + ([item] + post);
    assert NestedPlain(pre + [item] + post);
    NamesAppend(pre, [item], false);
    NamesAppend(pre + [item], post, false);
    assert Names([item], false) == {ItemName(item)};
  }

  lemma TopLevelAhead(pre: seq<Production>, item: Production, post: seq<Production>)
    requires IsItem(item) && Plain(pre + [item] + post)
    requires OptionsOutsideIterations(pre)
    requires ItemName(item) !in MentionedNames(pre) && ItemName(item) !in MentionedNames(post)
    ensures TopAhead(pre + ([item] + post), ItemName(item), 0, 0)
  {
    AllNodesAppend(pre, [item], NotMarker);
    AllNodesAppend(pre + [item], post, NotMarker);
    ItemAhead(item, post);
    TopAheadSkipTop(pre, [item] + post, ItemName(item), 0);
  }

  /** The site is ahead of a path that starts with the item itself. */
  lemma ItemAhead(item: Production, post: seq<Production>)
    requires IsItem(item) && ItemName(item) !in MentionedNames(post)
    ensures TopAhead([item] + post, ItemName(item), 0, 0)
  {
    HeadAndRest(item, post);
  }
}
