/**
  The CST shape analysis on concrete rules: the rules of the toolkit's CST test
  suite, and rules where the analysis as written departs from the intuitive
  reading of a grammar (an option layer that leaks out of a repetition, a nested
  option that closes its parent's layer, the last write winning across
  alternatives, an empty alternation ending the exploration).

  Each test rule's classification is assembled from the general theorems of
  `CstTheory`, one small lemma per name.
*/
module CstScenarios {
  import opened Gast
  import opened Cst
  import opened CstTheory

  // ===========================================================================
  // The test suite's rules

  /** `A B bamba`: three single children. */
  lemma FlatRule()
    ensures DictionaryDef([Terminal("A"), Terminal("B"), NonTerminal("bamba")])
         == map["A" := None, "B" := None, "bamba" := None]
  {
    FlatRuleKeys();
    FlatRuleA();
    FlatRuleB();
    FlatRuleBamba();
  }

  lemma FlatRuleKeys()
    ensures DictionaryDef([Terminal("A"), Terminal("B"), NonTerminal("bamba")]).Keys == {"A", "B", "bamba"}
  {
    DictionaryDefKeysExact([Terminal("A"), Terminal("B"), NonTerminal("bamba")]);
  }

  lemma FlatRuleA()
    ensures "A" in DictionaryDef([Terminal("A"), Terminal("B"), NonTerminal("bamba")])
    ensures DictionaryDef([Terminal("A"), Terminal("B"), NonTerminal("bamba")])["A"] == None
  {
    FlatDefinition([Terminal("A"), Terminal("B"), NonTerminal("bamba")], "A");
  }

  lemma FlatRuleB()
    ensures "B" in DictionaryDef([Terminal("A"), Terminal("B"), NonTerminal("bamba")])
    ensures DictionaryDef([Terminal("A"), Terminal("B"), NonTerminal("bamba")])["B"] == None
  {
    FlatDefinition([Terminal("A"), Terminal("B"), NonTerminal("bamba")], "B");
  }

  lemma FlatRuleBamba()
    ensures "bamba" in DictionaryDef([Terminal("A"), Terminal("B"), NonTerminal("bamba")])
    ensures DictionaryDef([Terminal("A"), Terminal("B"), NonTerminal("bamba")])["bamba"] == None
  {
    FlatDefinition([Terminal("A"), Terminal("B"), NonTerminal("bamba")], "bamba");
  }

  /** `OR(A | B bamba)`: every name is optional; the names of the alternative
      not taken are absent from the node, not empty. */
  lemma AlternationRule()
    ensures DictionaryDef([Alternation([Flat([Terminal("A")]), Flat([Terminal("B"), NonTerminal("bamba")])])])
         == map["A" := Optional, "B" := Optional, "bamba" := Optional]
  {
    AlternationRuleKeys();
    AlternationRuleA();
    AlternationRuleB();
    AlternationRuleBamba();
  }

  lemma AlternationRuleKeys()
    ensures DictionaryDef([Alternation([Flat([Terminal("A")]), Flat([Terminal("B"), NonTerminal("bamba")])])]).Keys == {"A", "B", "bamba"}
  {
    AlternationRuleWellFormed();
    DictionaryDefKeysExact([Alternation([Flat([Terminal("A")]), Flat([Terminal("B"), NonTerminal("bamba")])])]);
  }

  lemma AlternationRuleA()
    ensures "A" in DictionaryDef([Alternation([Flat([Terminal("A")]), Flat([Terminal("B"), NonTerminal("bamba")])])])
    ensures DictionaryDef([Alternation([Flat([Terminal("A")]), Flat([Terminal("B"), NonTerminal("bamba")])])])["A"] == Optional
  {
    AlternationRuleWellFormed();
    OptionalInTopLevelAlternation([], [Flat([Terminal("A")]), Flat([Terminal("B"), NonTerminal("bamba")])], [], "A");
  }

  lemma AlternationRuleB()
    ensures "B" in DictionaryDef([Alternation([Flat([Terminal("A")]), Flat([Terminal("B"), NonTerminal("bamba")])])])
    ensures DictionaryDef([Alternation([Flat([Terminal("A")]), Flat([Terminal("B"), NonTerminal("bamba")])])])["B"] == Optional
  {
    AlternationRuleWellFormed();
    OptionalInTopLevelAlternation([], [Flat([Terminal("A")]), Flat([Terminal("B"), NonTerminal("bamba")])], [], "B");
  }

  lemma AlternationRuleBamba()
    ensures "bamba" in DictionaryDef([Alternation([Flat([Terminal("A")]), Flat([Terminal("B"), NonTerminal("bamba")])])])
    ensures DictionaryDef([Alternation([Flat([Terminal("A")]), Flat([Terminal("B"), NonTerminal("bamba")])])])["bamba"] == Optional
  {
    AlternationRuleWellFormed();
    OptionalInTopLevelAlternation([], [Flat([Terminal("A")]), Flat([Terminal("B"), NonTerminal("bamba")])], [], "bamba");
  }

  lemma AlternationRuleWellFormed()
    ensures [] + [Alternation([Flat([Terminal("A")]), Flat([Terminal("B"), NonTerminal("bamba")])])] + [] == [Alternation([Flat([Terminal("A")]), Flat([Terminal("B"), NonTerminal("bamba")])])]
    ensures Plain([Alternation([Flat([Terminal("A")]), Flat([Terminal("B"), NonTerminal("bamba")])])]) && NoEmptyAlternation([Alternation([Flat([Terminal("A")]), Flat([Terminal("B"), NonTerminal("bamba")])])])
  {
  }

  /** `OR(A B)` with a single alternative: both stay single children. */
  lemma SingleAlternativeRule()
    ensures DictionaryDef([Alternation([Flat([Terminal("A"), Terminal("B")])])])
         == map["A" := None, "B" := None]
  {
    SingleAlternativeRuleKeys();
    SingleAlternativeRuleA();
    SingleAlternativeRuleB();
  }

  lemma SingleAlternativeRuleWellFormed()
    ensures [] + [Alternation([Flat([Terminal("A"), Terminal("B")])])] + [] == [Alternation([Flat([Terminal("A"), Terminal("B")])])]
    ensures Plain([Alternation([Flat([Terminal("A"), Terminal("B")])])]) && NoEmptyAlternation([Alternation([Flat([Terminal("A"), Terminal("B")])])])
  {
  }

  lemma SingleAlternativeRuleKeys()
    ensures DictionaryDef([Alternation([Flat([Terminal("A"), Terminal("B")])])]).Keys == {"A", "B"}
  {
    SingleAlternativeRuleWellFormed();
    DictionaryDefKeysExact([Alternation([Flat([Terminal("A"), Terminal("B")])])]);
  }

  lemma SingleAlternativeRuleA()
    ensures "A" in DictionaryDef([Alternation([Flat([Terminal("A"), Terminal("B")])])])
    ensures DictionaryDef([Alternation([Flat([Terminal("A"), Terminal("B")])])])["A"] == None
  {
    SingleAlternativeRuleWellFormed();
    NoneInSingleAlternative([], [Terminal("A"), Terminal("B")], [], "A");
  }

  lemma SingleAlternativeRuleB()
    ensures "B" in DictionaryDef([Alternation([Flat([Terminal("A"), Terminal("B")])])])
    ensures DictionaryDef([Alternation([Flat([Terminal("A"), Terminal("B")])])])["B"] == None
  {
    SingleAlternativeRuleWellFormed();
    NoneInSingleAlternative([], [Terminal("A"), Terminal("B")], [], "B");
  }

  /** `A B A`: a repeated terminal is a collection. */
  lemma RepeatedTerminalRule()
    ensures DictionaryDef([Terminal("A"), Terminal("B"), Terminal("A")])
         == map["A" := Collection, "B" := None]
  {
    RepeatedTerminalRuleKeys();
    RepeatedTerminalRuleA();
    RepeatedTerminalRuleB();
  }

  lemma RepeatedTerminalRuleKeys()
    ensures DictionaryDef([Terminal("A"), Terminal("B"), Terminal("A")]).Keys == {"A", "B"}
  {
    DictionaryDefKeysExact([Terminal("A"), Terminal("B"), Terminal("A")]);
  }

  lemma RepeatedTerminalRuleA()
    ensures "A" in DictionaryDef([Terminal("A"), Terminal("B"), Terminal("A")])
    ensures DictionaryDef([Terminal("A"), Terminal("B"), Terminal("A")])["A"] == Collection
  {
    FlatDefinition([Terminal("A"), Terminal("B"), Terminal("A")], "A");
  }

  lemma RepeatedTerminalRuleB()
    ensures "B" in DictionaryDef([Terminal("A"), Terminal("B"), Terminal("A")])
    ensures DictionaryDef([Terminal("A"), Terminal("B"), Terminal("A")])["B"] == None
  {
    FlatDefinition([Terminal("A"), Terminal("B"), Terminal("A")], "B");
  }

  /** `MANY(A bamba) B`. */
  lemma ManyRule()
    ensures DictionaryDef([Repetition([Terminal("A"), NonTerminal("bamba")]), Terminal("B")])
         == map["A" := Collection, "bamba" := Collection, "B" := None]
  {
    ManyRuleKeys();
    ManyRuleA();
    ManyRuleBamba();
    ManyRuleB();
  }

  lemma ManyRuleWellFormed()
    ensures [Repetition([Terminal("A"), NonTerminal("bamba")])] + [Terminal("B")] + [] == [Repetition([Terminal("A"), NonTerminal("bamba")]), Terminal("B")]
    ensures Plain([Repetition([Terminal("A"), NonTerminal("bamba")]), Terminal("B")]) && NoEmptyAlternation([Repetition([Terminal("A"), NonTerminal("bamba")]), Terminal("B")])
  {
  }

  lemma ManyRuleKeys()
    ensures DictionaryDef([Repetition([Terminal("A"), NonTerminal("bamba")]), Terminal("B")]).Keys == {"A", "bamba", "B"}
  {
    ManyRuleWellFormed();
    DictionaryDefKeysExact([Repetition([Terminal("A"), NonTerminal("bamba")]), Terminal("B")]);
  }

  lemma ManyRuleA()
    ensures "A" in DictionaryDef([Repetition([Terminal("A"), NonTerminal("bamba")]), Terminal("B")])
    ensures DictionaryDef([Repetition([Terminal("A"), NonTerminal("bamba")]), Terminal("B")])["A"] == Collection
  {
    ManyRuleWellFormed();
    CollectionInsideIteration([Repetition([Terminal("A"), NonTerminal("bamba")]), Terminal("B")], "A");
  }

  lemma ManyRuleBamba()
    ensures "bamba" in DictionaryDef([Repetition([Terminal("A"), NonTerminal("bamba")]), Terminal("B")])
    ensures DictionaryDef([Repetition([Terminal("A"), NonTerminal("bamba")]), Terminal("B")])["bamba"] == Collection
  {
    ManyRuleWellFormed();
    CollectionInsideIteration([Repetition([Terminal("A"), NonTerminal("bamba")]), Terminal("B")], "bamba");
  }

  lemma ManyRuleB()
    ensures "B" in DictionaryDef([Repetition([Terminal("A"), NonTerminal("bamba")]), Terminal("B")])
    ensures DictionaryDef([Repetition([Terminal("A"), NonTerminal("bamba")]), Terminal("B")])["B"] == None
  {
    ManyRuleWellFormed();
    NoneAtTopLevel([Repetition([Terminal("A"), NonTerminal("bamba")])], Terminal("B"), []);
  }

  /** `OPTION(A bamba) B`: the names inside the option are optional. */
  lemma OptionRule()
    ensures DictionaryDef([Option([Terminal("A"), NonTerminal("bamba")]), Terminal("B")])
         == map["A" := Optional, "bamba" := Optional, "B" := None]
  {
    OptionRuleKeys();
    OptionRuleA();
    OptionRuleBamba();
    OptionRuleB();
  }

  lemma OptionRuleWellFormed()
    ensures [] + [Option([Terminal("A"), NonTerminal("bamba")])] + [Terminal("B")] == [Option([Terminal("A"), NonTerminal("bamba")]), Terminal("B")]
    ensures [Option([Terminal("A"), NonTerminal("bamba")])] + [Terminal("B")] + [] == [Option([Terminal("A"), NonTerminal("bamba")]), Terminal("B")]
    ensures Plain([Option([Terminal("A"), NonTerminal("bamba")]), Terminal("B")]) && NoEmptyAlternation([Option([Terminal("A"), NonTerminal("bamba")]), Terminal("B")])
  {
  }

  lemma OptionRuleKeys()
    ensures DictionaryDef([Option([Terminal("A"), NonTerminal("bamba")]), Terminal("B")]).Keys == {"A", "bamba", "B"}
  {
    OptionRuleWellFormed();
    DictionaryDefKeysExact([Option([Terminal("A"), NonTerminal("bamba")]), Terminal("B")]);
  }

  lemma OptionRuleA()
    ensures "A" in DictionaryDef([Option([Terminal("A"), NonTerminal("bamba")]), Terminal("B")])
    ensures DictionaryDef([Option([Terminal("A"), NonTerminal("bamba")]), Terminal("B")])["A"] == Optional
  {
    OptionRuleWellFormed();
    OptionalInTopLevelOption([], [Terminal("A"), NonTerminal("bamba")], [Terminal("B")], "A");
  }

  lemma OptionRuleBamba()
    ensures "bamba" in DictionaryDef([Option([Terminal("A"), NonTerminal("bamba")]), Terminal("B")])
    ensures DictionaryDef([Option([Terminal("A"), NonTerminal("bamba")]), Terminal("B")])["bamba"] == Optional
  {
    OptionRuleWellFormed();
    OptionalInTopLevelOption([], [Terminal("A"), NonTerminal("bamba")], [Terminal("B")], "bamba");
  }

  lemma OptionRuleB()
    ensures "B" in DictionaryDef([Option([Terminal("A"), NonTerminal("bamba")]), Terminal("B")])
    ensures DictionaryDef([Option([Terminal("A"), NonTerminal("bamba")]), Terminal("B")])["B"] == None
  {
    OptionRuleWellFormed();
    NoneAtTopLevel([Option([Terminal("A"), NonTerminal("bamba")])], Terminal("B"), []);
  }

  /** The node `OPTION(A bamba) B` builds when the option is not taken: from the
      classification of `OptionRule`, `A` and `bamba` are present but
      `undefined`, and `B` holds the one token consumed. */
  lemma OptionRulePathNotTaken(children: map<string, CstSlot>, b: Token)
    requires Initialized(children, map["A" := Optional, "bamba" := Optional, "B" := None])
    ensures WithChild(children, "B", TokenChild(b), None).Updated?
    ensures var after := WithChild(children, "B", TokenChild(b), None).children;
      after.Keys == {"A", "B", "bamba"} &&
      after["A"] == Undefined && after["bamba"] == Undefined && after["B"] == Single(TokenChild(b))
  {
    assert "A" in children && "bamba" in children;
    assert children.Keys == {"A", "bamba"};
  }

  /** `AT_LEAST_ONE(A) B`. */
  lemma AtLeastOneRule()
    ensures DictionaryDef([RepetitionMandatory([Terminal("A")]), Terminal("B")])
         == map["A" := Collection, "B" := None]
  {
    AtLeastOneRuleKeys();
    AtLeastOneRuleA();
    AtLeastOneRuleB();
  }

  lemma AtLeastOneRuleWellFormed()
    ensures [RepetitionMandatory([Terminal("A")])] + [Terminal("B")] + [] == [RepetitionMandatory([Terminal("A")]), Terminal("B")]
    ensures Plain([RepetitionMandatory([Terminal("A")]), Terminal("B")]) && NoEmptyAlternation([RepetitionMandatory([Terminal("A")]), Terminal("B")])
  {
  }

  lemma AtLeastOneRuleKeys()
    ensures DictionaryDef([RepetitionMandatory([Terminal("A")]), Terminal("B")]).Keys == {"A", "B"}
  {
    AtLeastOneRuleWellFormed();
    DictionaryDefKeysExact([RepetitionMandatory([Terminal("A")]), Terminal("B")]);
  }

  lemma AtLeastOneRuleA()
    ensures "A" in DictionaryDef([RepetitionMandatory([Terminal("A")]), Terminal("B")])
    ensures DictionaryDef([RepetitionMandatory([Terminal("A")]), Terminal("B")])["A"] == Collection
  {
    AtLeastOneRuleWellFormed();
    CollectionInsideIteration([RepetitionMandatory([Terminal("A")]), Terminal("B")], "A");
  }

  lemma AtLeastOneRuleB()
    ensures "B" in DictionaryDef([RepetitionMandatory([Terminal("A")]), Terminal("B")])
    ensures DictionaryDef([RepetitionMandatory([Terminal("A")]), Terminal("B")])["B"] == None
  {
    AtLeastOneRuleWellFormed();
    NoneAtTopLevel([RepetitionMandatory([Terminal("A")])], Terminal("B"), []);
  }

  /** `MANY_SEP(SEP: C, A) B`: the separator is a collection too. */
  lemma ManySepRule()
    ensures DictionaryDef([RepetitionWithSeparator([Terminal("A")], "C"), Terminal("B")])
         == map["A" := Collection, "C" := Collection, "B" := None]
  {
    ManySepRuleKeys();
    ManySepRuleA();
    ManySepRuleC();
    ManySepRuleB();
  }

  lemma ManySepRuleWellFormed()
    ensures [RepetitionWithSeparator([Terminal("A")], "C")] + [Terminal("B")] + [] == [RepetitionWithSeparator([Terminal("A")], "C"), Terminal("B")]
    ensures Plain([RepetitionWithSeparator([Terminal("A")], "C"), Terminal("B")]) && NoEmptyAlternation([RepetitionWithSeparator([Terminal("A")], "C"), Terminal("B")])
  {
  }

  lemma ManySepRuleKeys()
    ensures DictionaryDef([RepetitionWithSeparator([Terminal("A")], "C"), Terminal("B")]).Keys == {"A", "C", "B"}
  {
    ManySepRuleWellFormed();
    DictionaryDefKeysExact([RepetitionWithSeparator([Terminal("A")], "C"), Terminal("B")]);
  }

  lemma ManySepRuleA()
    ensures "A" in DictionaryDef([RepetitionWithSeparator([Terminal("A")], "C"), Terminal("B")])
    ensures DictionaryDef([RepetitionWithSeparator([Terminal("A")], "C"), Terminal("B")])["A"] == Collection
  {
    ManySepRuleWellFormed();
    CollectionInsideIteration([RepetitionWithSeparator([Terminal("A")], "C"), Terminal("B")], "A");
  }

  lemma ManySepRuleC()
    ensures "C" in DictionaryDef([RepetitionWithSeparator([Terminal("A")], "C"), Terminal("B")])
    ensures DictionaryDef([RepetitionWithSeparator([Terminal("A")], "C"), Terminal("B")])["C"] == Collection
  {
    ManySepRuleWellFormed();
    SeparatorIsCollection([RepetitionWithSeparator([Terminal("A")], "C"), Terminal("B")], "C");
  }

  lemma ManySepRuleB()
    ensures "B" in DictionaryDef([RepetitionWithSeparator([Terminal("A")], "C"), Terminal("B")])
    ensures DictionaryDef([RepetitionWithSeparator([Terminal("A")], "C"), Terminal("B")])["B"] == None
  {
    ManySepRuleWellFormed();
    NoneAtTopLevel([RepetitionWithSeparator([Terminal("A")], "C")], Terminal("B"), []);
  }

  /** `AT_LEAST_ONE_SEP(SEP: C, A) B`. */
  lemma AtLeastOneSepRule()
    ensures DictionaryDef([RepetitionMandatoryWithSeparator([Terminal("A")], "C"), Terminal("B")])
         == map["A" := Collection, "C" := Collection, "B" := None]
  {
    AtLeastOneSepRuleKeys();
    AtLeastOneSepRuleA();
    AtLeastOneSepRuleC();
    AtLeastOneSepRuleB();
  }

  lemma AtLeastOneSepRuleWellFormed()
    ensures [RepetitionMandatoryWithSeparator([Terminal("A")], "C")] + [Terminal("B")] + [] == [RepetitionMandatoryWithSeparator([Terminal("A")], "C"), Terminal("B")]
    ensures Plain([RepetitionMandatoryWithSeparator([Terminal("A")], "C"), Terminal("B")]) && NoEmptyAlternation([RepetitionMandatoryWithSeparator([Terminal("A")], "C"), Terminal("B")])
  {
  }

  lemma AtLeastOneSepRuleKeys()
    ensures DictionaryDef([RepetitionMandatoryWithSeparator([Terminal("A")], "C"), Terminal("B")]).Keys == {"A", "C", "B"}
  {
    AtLeastOneSepRuleWellFormed();
    DictionaryDefKeysExact([RepetitionMandatoryWithSeparator([Terminal("A")], "C"), Terminal("B")]);
  }

  lemma AtLeastOneSepRuleA()
    ensures "A" in DictionaryDef([RepetitionMandatoryWithSeparator([Terminal("A")], "C"), Terminal("B")])
    ensures DictionaryDef([RepetitionMandatoryWithSeparator([Terminal("A")], "C"), Terminal("B")])["A"] == Collection
  {
    AtLeastOneSepRuleWellFormed();
    CollectionInsideIteration([RepetitionMandatoryWithSeparator([Terminal("A")], "C"), Terminal("B")], "A");
  }

  lemma AtLeastOneSepRuleC()
    ensures "C" in DictionaryDef([RepetitionMandatoryWithSeparator([Terminal("A")], "C"), Terminal("B")])
    ensures DictionaryDef([RepetitionMandatoryWithSeparator([Terminal("A")], "C"), Terminal("B")])["C"] == Collection
  {
    AtLeastOneSepRuleWellFormed();
    SeparatorIsCollection([RepetitionMandatoryWithSeparator([Terminal("A")], "C"), Terminal("B")], "C");
  }

  lemma AtLeastOneSepRuleB()
    ensures "B" in DictionaryDef([RepetitionMandatoryWithSeparator([Terminal("A")], "C"), Terminal("B")])
    ensures DictionaryDef([RepetitionMandatoryWithSeparator([Terminal("A")], "C"), Terminal("B")])["B"] == None
  {
    AtLeastOneSepRuleWellFormed();
    NoneAtTopLevel([RepetitionMandatoryWithSeparator([Terminal("A")], "C")], Terminal("B"), []);
  }

  // ===========================================================================
  // The analysis as written, where it departs from the grammar's reading
  //
  // Each rule is explored step by step: one lemma per pop of the worklist, over
  // an arbitrary result table `r`, and a lemma chaining them.

  /** `OPTION(OPTION(A) B)`: `B` lies inside an option, yet it keeps `None`. The
      inner option builds its option stack from the iteration stack, which is
      empty, so it reuses the outer option's single layer, and leaving the inner
      option closes that layer before `B` is met. */
  lemma NestedOptionClosesOuterOption()
    ensures DictionaryDef([Option([Option([Terminal("A")]), Terminal("B")])])
         == NoneOn({"A", "B"})["A" := Optional]
  {
    assert VisitedNames([Option([Option([Terminal("A")]), Terminal("B")])]) == {"A", "B"};
    NestedOptionRun(NoneOn({"A", "B"}));
  }

  /** `MANY(OPTION(A)) B`: `B` follows the repetition outside every option, yet it
      is classified `Optional`. Inside the repetition the option's stack is the
      iteration stack plus one layer, two layers in all, and leaving the option
      closes only one of them. */
  lemma OptionLeaksOutOfRepetition()
    ensures DictionaryDef([Repetition([Option([Terminal("A")])]), Terminal("B")])
         == NoneOn({"A", "B"})["A" := Collection]["B" := Optional]
  {
    assert VisitedNames([Repetition([Option([Terminal("A")])]), Terminal("B")]) == {"A", "B"};
    LeakingOptionRun(NoneOn({"A", "B"}));
  }

  /** The alternation pushes the second alternative's path first, so the first
      alternative's path is on top. */
  lemma LastWriteWinsPaths()
    ensures AlternativePaths([Flat([Terminal("A"), Terminal("A")]), Flat([Terminal("A")])], [], [], map[])
         == [PathState([Terminal("A"), ExitOption], [], [true], map[]),
             PathState([Terminal("A"), Terminal("A"), ExitOption], [], [true], map[])]
  {
    var paths := AlternativePaths([Flat([Terminal("A"), Terminal("A")]), Flat([Terminal("A")])], [], [], map[]);
    assert |paths| == 2;
    assert paths[0] == AlternativePath(Flat([Terminal("A")]), true, [], [], map[]);
    assert [Terminal("A")] + [ExitOption] + [] == [Terminal("A"), ExitOption];
    assert paths[0] == PathState([Terminal("A"), ExitOption], [], [true], map[]);
    assert paths[1] == AlternativePath(Flat([Terminal("A"), Terminal("A")]), true, [], [], map[]);
    assert [Terminal("A"), Terminal("A")] + [ExitOption] + [] == [Terminal("A"), Terminal("A"), ExitOption];
    assert paths[1] == PathState([Terminal("A"), Terminal("A"), ExitOption], [], [true], map[]);
  }

  /** Popping the alternation leaves the two alternative paths, explored first
      alternative first. */
  lemma LastWriteWinsSplit(r: map<string, CstSubtype>)
    ensures RunStack([InitialPath([Alternation([Flat([Terminal("A"), Terminal("A")]), Flat([Terminal("A")])])])], r)
         == RunStack([PathState([Terminal("A"), ExitOption], [], [true], map[])],
              RunStack([PathState([Terminal("A"), Terminal("A"), ExitOption], [], [true], map[])], r))
  {
    var second := PathState([Terminal("A"), ExitOption], [], [true], map[]);
    var first := PathState([Terminal("A"), Terminal("A"), ExitOption], [], [true], map[]);
    AlternationStep([Flat([Terminal("A"), Terminal("A")]), Flat([Terminal("A")])], [], [], [], map[], r);
    assert [Alternation([Flat([Terminal("A"), Terminal("A")]), Flat([Terminal("A")])])]
        == [Alternation([Flat([Terminal("A"), Terminal("A")]), Flat([Terminal("A")])])] + [];
    LastWriteWinsPaths();
    assert [second, first] == [second] + [first];
    RunStackAppend([second], [first], r);
  }

  /** The whole exploration of `OR(A A | A)`. */
  lemma LastWriteWinsRun(r: map<string, CstSubtype>)
    ensures RunStack([InitialPath([Alternation([Flat([Terminal("A"), Terminal("A")]), Flat([Terminal("A")])])])], r)
         == r["A" := Optional]
  {
    LastWriteWinsSplit(r);
    FirstAlternativeRun(r);
    SecondAlternativeRun(r["A" := Optional]["A" := Collection]);
    assert r["A" := Optional]["A" := Collection]["A" := Optional] == r["A" := Optional];
  }

  /** `OR(A A | A)`: the first alternative holds `A` twice, yet `A` is classified
      `Optional`. The alternatives share one result table, the first alternative
      is explored first, and the second alternative's write comes last. */
  lemma LastWriteWins()
    ensures DictionaryDef([Alternation([Flat([Terminal("A"), Terminal("A")]), Flat([Terminal("A")])])])
         == NoneOn({"A"})["A" := Optional]
  {
    assert VisitedNames([Alternation([Flat([Terminal("A"), Terminal("A")]), Flat([Terminal("A")])])]) == {"A"};
    LastWriteWinsRun(NoneOn({"A"}));
  }

  /** `OR() MANY_SEP(A, C)`: an alternation without alternatives pushes no path,
      so nothing after it is analysed: `A` keeps the `None` the visitor gave it
      and the separator `C` gets no entry. */
  lemma EmptyAlternationEndsPath()
    ensures DictionaryDef([Alternation([]), RepetitionWithSeparator([Terminal("A")], "C")]) == NoneOn({"A"})
  {
    assert VisitedNames([Alternation([]), RepetitionWithSeparator([Terminal("A")], "C")]) == {"A"};
    EmptyAlternationRun(NoneOn({"A"}));
  }

  /** The whole exploration of `OR() MANY_SEP(A, C)`: one pop and no write. */
  lemma EmptyAlternationRun(r: map<string, CstSubtype>)
    ensures RunStack([InitialPath([Alternation([]), RepetitionWithSeparator([Terminal("A")], "C")])], r) == r
  {
    AlternationStep([], [RepetitionWithSeparator([Terminal("A")], "C")], [], [], map[], r);
    assert [Alternation([]), RepetitionWithSeparator([Terminal("A")], "C")]
        == [Alternation([])] + [RepetitionWithSeparator([Terminal("A")], "C")];
    assert AlternativePaths([], [RepetitionWithSeparator([Terminal("A")], "C")], [], map[]) == [];
  }

  /** The outer option opens an option layer. */
  lemma NestedOptionStep0(r: map<string, CstSubtype>)
    ensures RunStack([PathState([Option([Option([Terminal("A")]), Terminal("B")])], [], [], map[])], r)
         == RunStack([PathState([Option([Terminal("A")]), Terminal("B"), ExitOption], [], [true], map[])], r)
  {
    OptionStep([Option([Terminal("A")]), Terminal("B")], [], [], [], map[], r);
    assert [Option([Option([Terminal("A")]), Terminal("B")])] == [Option([Option([Terminal("A")]), Terminal("B")])] + [];
    assert [Option([Terminal("A")]), Terminal("B")] + [ExitOption] + [] == [Option([Terminal("A")]), Terminal("B"), ExitOption];
    assert [] + [true] == [true];
  }

  /** The inner option's option stack is the iteration stack plus one layer: still one layer. */
  lemma NestedOptionStep1(r: map<string, CstSubtype>)
    ensures RunStack([PathState([Option([Terminal("A")]), Terminal("B"), ExitOption], [], [true], map[])], r)
         == RunStack([PathState([Terminal("A"), ExitOption, Terminal("B"), ExitOption], [], [true], map[])], r)
  {
    OptionStep([Terminal("A")], [Terminal("B"), ExitOption], [], [true], map[], r);
    assert [Option([Terminal("A")]), Terminal("B"), ExitOption] == [Option([Terminal("A")])] + [Terminal("B"), ExitOption];
    assert [Terminal("A")] + [ExitOption] + [Terminal("B"), ExitOption] == [Terminal("A"), ExitOption, Terminal("B"), ExitOption];
    assert [] + [true] == [true];
  }

  /** `A` is met inside that layer and written `Optional`. */
  lemma NestedOptionStep2(r: map<string, CstSubtype>)
    ensures RunStack([PathState([Terminal("A"), ExitOption, Terminal("B"), ExitOption], [], [true], map[])], r)
         == RunStack([PathState([ExitOption, Terminal("B"), ExitOption], [], [true], Counted(map[], "A"))], r["A" := Optional])
  {
    ItemStep(Terminal("A"), [ExitOption, Terminal("B"), ExitOption], [], [true], map[], r);
    assert [Terminal("A"), ExitOption, Terminal("B"), ExitOption] == [Terminal("A")] + [ExitOption, Terminal("B"), ExitOption];
    assert Classify("A", OccurrencesSoFar(map[], "A") + 1, [], [true]) == Write("A", Optional);
  }

  /** Leaving the inner option empties the option stack. */
  lemma NestedOptionStep3(r: map<string, CstSubtype>)
    ensures RunStack([PathState([ExitOption, Terminal("B"), ExitOption], [], [true], Counted(map[], "A"))], r)
         == RunStack([PathState([Terminal("B"), ExitOption], [], [], Counted(map[], "A"))], r)
  {
    ExitOptionStep([Terminal("B"), ExitOption], [], [true], Counted(map[], "A"), r);
    assert [ExitOption, Terminal("B"), ExitOption] == [ExitOption] + [Terminal("B"), ExitOption];
    assert DropRight([true]) == [];
  }

  /** `B` is met outside every layer: no write. */
  lemma NestedOptionStep4(r: map<string, CstSubtype>)
    ensures RunStack([PathState([Terminal("B"), ExitOption], [], [], Counted(map[], "A"))], r)
         == RunStack([PathState([ExitOption], [], [], Counted(Counted(map[], "A"), "B"))], r)
  {
    ItemStep(Terminal("B"), [ExitOption], [], [], Counted(map[], "A"), r);
    assert [Terminal("B"), ExitOption] == [Terminal("B")] + [ExitOption];
    assert Classify("B", OccurrencesSoFar(Counted(map[], "A"), "B") + 1, [], []) == NoWrite;
  }

  /** Leaving the outer option. */
  lemma NestedOptionStep5(r: map<string, CstSubtype>)
    ensures RunStack([PathState([ExitOption], [], [], Counted(Counted(map[], "A"), "B"))], r)
         == RunStack([PathState([], [], [], Counted(Counted(map[], "A"), "B"))], r)
  {
    ExitOptionStep([], [], [], Counted(Counted(map[], "A"), "B"), r);
    assert [ExitOption] == [ExitOption] + [];
    assert DropRight([]) == [];
  }

  /** The path ends. */
  lemma NestedOptionStep6(r: map<string, CstSubtype>)
    ensures RunStack([PathState([], [], [], Counted(Counted(map[], "A"), "B"))], r)
         == r
  {
    EndOfPath([], [], Counted(Counted(map[], "A"), "B"), r);
  }

  /** The whole exploration of `OPTION(OPTION(A) B)`. */
  lemma NestedOptionRun(r: map<string, CstSubtype>)
    ensures RunStack([PathState([Option([Option([Terminal("A")]), Terminal("B")])], [], [], map[])], r) == r["A" := Optional]
  {
    NestedOptionStep0(r);
    NestedOptionStep1(r);
    NestedOptionStep2(r);
    NestedOptionStep3(r["A" := Optional]);
    NestedOptionStep4(r["A" := Optional]);
    NestedOptionStep5(r["A" := Optional]);
    NestedOptionStep6(r["A" := Optional]);
  }

  /** The repetition opens an iteration layer. */
  lemma LeakingOptionStep0(r: map<string, CstSubtype>)
    ensures RunStack([PathState([Repetition([Option([Terminal("A")])]), Terminal("B")], [], [], map[])], r)
         == RunStack([PathState([Option([Terminal("A")]), ExitIteration, Terminal("B")], [true], [], map[])], r)
  {
    RepetitionStep([Option([Terminal("A")])], [Terminal("B")], [], [], map[], r);
    assert [Repetition([Option([Terminal("A")])]), Terminal("B")] == [Repetition([Option([Terminal("A")])])] + [Terminal("B")];
    assert [Option([Terminal("A")])] + [ExitIteration] + [Terminal("B")] == [Option([Terminal("A")]), ExitIteration, Terminal("B")];
    assert [] + [true] == [true];
  }

  /** The option's option stack is the iteration stack plus one layer: two layers. */
  lemma LeakingOptionStep1(r: map<string, CstSubtype>)
    ensures RunStack([PathState([Option([Terminal("A")]), ExitIteration, Terminal("B")], [true], [], map[])], r)
         == RunStack([PathState([Terminal("A"), ExitOption, ExitIteration, Terminal("B")], [true], [true, true], map[])], r)
  {
    OptionStep([Terminal("A")], [ExitIteration, Terminal("B")], [true], [], map[], r);
    assert [Option([Terminal("A")]), ExitIteration, Terminal("B")] == [Option([Terminal("A")])] + [ExitIteration, Terminal("B")];
    assert [Terminal("A")] + [ExitOption] + [ExitIteration, Terminal("B")] == [Terminal("A"), ExitOption, ExitIteration, Terminal("B")];
    assert [true] + [true] == [true, true];
  }

  /** `A` is met inside the repetition and written `Collection`. */
  lemma LeakingOptionStep2(r: map<string, CstSubtype>)
    ensures RunStack([PathState([Terminal("A"), ExitOption, ExitIteration, Terminal("B")], [true], [true, true], map[])], r)
         == RunStack([PathState([ExitOption, ExitIteration, Terminal("B")], [true], [true, true], Counted(map[], "A"))], r["A" := Collection])
  {
    ItemStep(Terminal("A"), [ExitOption, ExitIteration, Terminal("B")], [true], [true, true], map[], r);
    assert [Terminal("A"), ExitOption, ExitIteration, Terminal("B")] == [Terminal("A")] + [ExitOption, ExitIteration, Terminal("B")];
    assert Classify("A", OccurrencesSoFar(map[], "A") + 1, [true], [true, true]) == Write("A", Collection);
  }

  /** Leaving the option closes one of the two layers. */
  lemma LeakingOptionStep3(r: map<string, CstSubtype>)
    ensures RunStack([PathState([ExitOption, ExitIteration, Terminal("B")], [true], [true, true], Counted(map[], "A"))], r)
         == RunStack([PathState([ExitIteration, Terminal("B")], [true], [true], Counted(map[], "A"))], r)
  {
    ExitOptionStep([ExitIteration, Terminal("B")], [true], [true, true], Counted(map[], "A"), r);
    assert [ExitOption, ExitIteration, Terminal("B")] == [ExitOption] + [ExitIteration, Terminal("B")];
    assert DropRight([true, true]) == [true];
  }

  /** Leaving the repetition closes the iteration layer. */
  lemma LeakingOptionStep4(r: map<string, CstSubtype>)
    ensures RunStack([PathState([ExitIteration, Terminal("B")], [true], [true], Counted(map[], "A"))], r)
         == RunStack([PathState([Terminal("B")], [], [true], Counted(map[], "A"))], r)
  {
    ExitIterationStep([Terminal("B")], [true], [true], Counted(map[], "A"), r);
    assert [ExitIteration, Terminal("B")] == [ExitIteration] + [Terminal("B")];
    assert DropRight([true]) == [];
  }

  /** `B` still sees an option layer and is written `Optional`. */
  lemma LeakingOptionStep5(r: map<string, CstSubtype>)
    ensures RunStack([PathState([Terminal("B")], [], [true], Counted(map[], "A"))], r)
         == RunStack([PathState([], [], [true], Counted(Counted(map[], "A"), "B"))], r["B" := Optional])
  {
    ItemStep(Terminal("B"), [], [], [true], Counted(map[], "A"), r);
    assert [Terminal("B")] == [Terminal("B")] + [];
    assert Classify("B", OccurrencesSoFar(Counted(map[], "A"), "B") + 1, [], [true]) == Write("B", Optional);
  }

  /** The path ends. */
  lemma LeakingOptionStep6(r: map<string, CstSubtype>)
    ensures RunStack([PathState([], [], [true], Counted(Counted(map[], "A"), "B"))], r)
         == r
  {
    EndOfPath([], [true], Counted(Counted(map[], "A"), "B"), r);
  }

  /** The whole exploration of `MANY(OPTION(A)) B`. */
  lemma LeakingOptionRun(r: map<string, CstSubtype>)
    ensures RunStack([PathState([Repetition([Option([Terminal("A")])]), Terminal("B")], [], [], map[])], r) == r["A" := Collection]["B" := Optional]
  {
    LeakingOptionStep0(r);
    LeakingOptionStep1(r);
    LeakingOptionStep2(r);
    LeakingOptionStep3(r["A" := Collection]);
    LeakingOptionStep4(r["A" := Collection]);
    LeakingOptionStep5(r["A" := Collection]);
    LeakingOptionStep6(r["A" := Collection]["B" := Optional]);
  }

  /** The first `A` of the first alternative is written `Optional`. */
  lemma FirstAlternativeStep0(r: map<string, CstSubtype>)
    ensures RunStack([PathState([Terminal("A"), Terminal("A"), ExitOption], [], [true], map[])], r)
         == RunStack([PathState([Terminal("A"), ExitOption], [], [true], Counted(map[], "A"))], r["A" := Optional])
  {
    ItemStep(Terminal("A"), [Terminal("A"), ExitOption], [], [true], map[], r);
    assert [Terminal("A"), Terminal("A"), ExitOption] == [Terminal("A")] + [Terminal("A"), ExitOption];
    assert Classify("A", OccurrencesSoFar(map[], "A") + 1, [], [true]) == Write("A", Optional);
  }

  /** The second `A` on the same path is written `Collection`. */
  lemma FirstAlternativeStep1(r: map<string, CstSubtype>)
    ensures RunStack([PathState([Terminal("A"), ExitOption], [], [true], Counted(map[], "A"))], r)
         == RunStack([PathState([ExitOption], [], [true], Counted(Counted(map[], "A"), "A"))], r["A" := Collection])
  {
    ItemStep(Terminal("A"), [ExitOption], [], [true], Counted(map[], "A"), r);
    assert [Terminal("A"), ExitOption] == [Terminal("A")] + [ExitOption];
    assert Classify("A", OccurrencesSoFar(Counted(map[], "A"), "A") + 1, [], [true]) == Write("A", Collection);
  }

  /** Leaving the alternation's option layer. */
  lemma FirstAlternativeStep2(r: map<string, CstSubtype>)
    ensures RunStack([PathState([ExitOption], [], [true], Counted(Counted(map[], "A"), "A"))], r)
         == RunStack([PathState([], [], [], Counted(Counted(map[], "A"), "A"))], r)
  {
    ExitOptionStep([], [], [true], Counted(Counted(map[], "A"), "A"), r);
    assert [ExitOption] == [ExitOption] + [];
    assert DropRight([true]) == [];
  }

  /** The path ends. */
  lemma FirstAlternativeStep3(r: map<string, CstSubtype>)
    ensures RunStack([PathState([], [], [], Counted(Counted(map[], "A"), "A"))], r)
         == r
  {
    EndOfPath([], [], Counted(Counted(map[], "A"), "A"), r);
  }

  /** The path of the first alternative of `OR(A A | A)`. */
  lemma FirstAlternativeRun(r: map<string, CstSubtype>)
    ensures RunStack([PathState([Terminal("A"), Terminal("A"), ExitOption], [], [true], map[])], r) == r["A" := Optional]["A" := Collection]
  {
    FirstAlternativeStep0(r);
    FirstAlternativeStep1(r["A" := Optional]);
    FirstAlternativeStep2(r["A" := Optional]["A" := Collection]);
    FirstAlternativeStep3(r["A" := Optional]["A" := Collection]);
  }

  /** The `A` of the second alternative is written `Optional`. */
  lemma SecondAlternativeStep0(r: map<string, CstSubtype>)
    ensures RunStack([PathState([Terminal("A"), ExitOption], [], [true], map[])], r)
         == RunStack([PathState([ExitOption], [], [true], Counted(map[], "A"))], r["A" := Optional])
  {
    ItemStep(Terminal("A"), [ExitOption], [], [true], map[], r);
    assert [Terminal("A"), ExitOption] == [Terminal("A")] + [ExitOption];
    assert Classify("A", OccurrencesSoFar(map[], "A") + 1, [], [true]) == Write("A", Optional);
  }

  /** Leaving the alternation's option layer. */
  lemma SecondAlternativeStep1(r: map<string, CstSubtype>)
    ensures RunStack([PathState([ExitOption], [], [true], Counted(map[], "A"))], r)
         == RunStack([PathState([], [], [], Counted(map[], "A"))], r)
  {
    ExitOptionStep([], [], [true], Counted(map[], "A"), r);
    assert [ExitOption] == [ExitOption] + [];
    assert DropRight([true]) == [];
  }

  /** The path ends. */
  lemma SecondAlternativeStep2(r: map<string, CstSubtype>)
    ensures RunStack([PathState([], [], [], Counted(map[], "A"))], r)
         == r
  {
    EndOfPath([], [], Counted(map[], "A"), r);
  }

  /** The path of the second alternative of `OR(A A | A)`. */
  lemma SecondAlternativeRun(r: map<string, CstSubtype>)
    ensures RunStack([PathState([Terminal("A"), ExitOption], [], [true], map[])], r) == r["A" := Optional]
  {
    SecondAlternativeStep0(r);
    SecondAlternativeStep1(r["A" := Optional]);
    SecondAlternativeStep2(r["A" := Optional]);
  }
}
