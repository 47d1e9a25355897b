/**
 * The converter's entry point: splits parsed rules into advanced and simple ones,
 * and runs one conversion from raw lines to the distributor's result.
 */
module Converter {
  import opened Wrappers
  import opened Sequences
  import opened Rules
  import opened Factory
  import opened LogMessage

  /** The two lists the vetting step fills. */
  datatype VettedRules = VettedRules(advancedRules: seq<Rule>, simpleRules: seq<Rule>)

  /** The vetting test as the converter writes it: the script flag (tested twice, so a
      scriptlet counts only through it), and for cosmetic rules extended CSS or CSS
      injection. */
  predicate IsAdvanced(rule: Rule)
    ensures IsAdvanced(rule) <==>
      rule.isScript || (rule.CosmeticRule? && (rule.isExtendedCss || rule.isInjectCss))
  {
    var isAdvanced := rule.isScript || rule.isScript;
    if rule.CosmeticRule? then isAdvanced || rule.isExtendedCss || rule.isInjectCss
    else isAdvanced
  }

  predicate IsSimple(rule: Rule)
  {
    !IsAdvanced(rule)
  }

  /** Splits `rules` into advanced and simple rules, each list in input order. */
  method VetRules(rules: seq<Rule>) returns (result: VettedRules)
    ensures result.advancedRules == Filter(rules, IsAdvanced)
    ensures result.simpleRules == Filter(rules, IsSimple)
  {
    result := VettedRules([], []);
    for i := 0 to |rules|
      invariant result.advancedRules == Filter(rules[..i], IsAdvanced)
      invariant result.simpleRules == Filter(rules[..i], IsSimple)
    {
      FilterPrefixStep(rules, i, IsAdvanced);
      FilterPrefixStep(rules, i, IsSimple);
      var rule := rules[i];
      var isAdvanced := rule.isScript || rule.isScript;
      if rule.CosmeticRule? {
        isAdvanced := isAdvanced || rule.isExtendedCss || rule.isInjectCss;
      }
      assert isAdvanced == IsAdvanced(rule) == !IsSimple(rule);
      if isAdvanced {
        result := result.(advancedRules := result.advancedRules + [rule]);
      } else {
        result := result.(simpleRules := result.simpleRules + [rule]);
      }
    }
    assert rules[..|rules|] == rules;
  }

  /** The format of the advanced-blocking output. */
  datatype AdvancedBlockingFormat = Json | Txt

  /** No rules, or a single empty line. */
  predicate IsEmptyInput(rules: seq<string>)
    ensures IsEmptyInput(rules) <==> rules == [] || rules == [""]
  {
    |rules| == 0 || (|rules| == 1 && rules[0] == "")
  }

  /** The text of each rule, in order. */
  function RuleTexts(rules: seq<Rule>): (texts: seq<string>)
    ensures |texts| == |rules|
    ensures forall k :: 0 <= k < |rules| ==> texts[k] == rules[k].ruleText
  {
    seq(|rules|, k requires 0 <= k < |rules| => rules[k].ruleText)
  }

  /** The compile step of a conversion: the parsed rules (only the simple ones in
      text mode) compiled, with the advanced rules' texts recorded in text mode, and
      the number of errors the compiler met. */
  function CompileStep(parsed: seq<Rule>, optimize: bool, advancedBlocking: bool,
                       format: AdvancedBlockingFormat,
                       compile: (seq<Rule>, bool, bool) -> Compiled): Compiled
  {
    var compiled := compile(if format == Txt then Filter(parsed, IsSimple) else parsed,
                            optimize, advancedBlocking);
    if format == Txt
    then compiled.(result := compiled.result.(advancedRulesTexts := RuleTexts(Filter(parsed, IsAdvanced))))
    else compiled
  }

  /** Runs the compile step with `compiler`, whose counter receives the compiler's
      errors. */
  method CompileVetted(compiler: Compiler, parsedRules: seq<Rule>, format: AdvancedBlockingFormat)
    returns (compilationResult: CompilationResult)
    modifies compiler.errorsCounter
    ensures var step := CompileStep(parsedRules, compiler.optimize, compiler.advancedBlocking,
                                    format, compiler.compile);
      && compilationResult == step.result
      && compiler.errorsCounter.count == old(compiler.errorsCounter.count) + step.errors
  {
    if format == Txt {
      var vettedRules := VetRules(parsedRules);
      compilationResult := compiler.CompileRules(vettedRules.simpleRules);
      compilationResult := compilationResult.(advancedRulesTexts := RuleTexts(vettedRules.advancedRules));
    } else {
      compilationResult := compiler.CompileRules(parsedRules);
    }
  }

  /** The compilation result of a non-empty conversion before its message is set:
      the compile step on the factory's rules, with the counter's total (parse errors
      plus compile errors) as the error count. */
  function CompiledFor(rules: seq<string>, optimize: bool, advancedBlocking: bool,
                       format: AdvancedBlockingFormat, parsers: Parsers,
                       compile: (seq<Rule>, bool, bool) -> Compiled): CompilationResult
  {
    var step := CompileStep(CreatedRules(rules, parsers), optimize, advancedBlocking, format, compile);
    step.result.(errorsCount := ParseErrors(rules, parsers) + step.errors)
  }

  /** The compilation result a non-empty conversion hands to the distributor. */
  function CompilationFor(rules: seq<string>, optimize: bool, advancedBlocking: bool,
                          format: AdvancedBlockingFormat, parsers: Parsers,
                          compile: (seq<Rule>, bool, bool) -> Compiled): CompilationResult
  {
    var cr := CompiledFor(rules, optimize, advancedBlocking, format, parsers, compile);
    cr.(message := CreateLogMessage(cr))
  }

  /** Converts filter lines: an empty input yields the empty result; otherwise the
      lines are parsed with a fresh error counter, compiled (in text mode only the
      simple rules, the advanced ones kept as text), summarised and distributed. */
  method ConvertArray<R>(rules: seq<string>, rulesLimit: nat, parsers: Parsers, backend: Backend<R>,
                         optimize: bool := false, advancedBlocking: bool := false,
                         advancedBlockingFormat: AdvancedBlockingFormat := Json)
    returns (result: Option<R>)
    ensures IsEmptyInput(rules) ==> result == backend.emptyResult
    ensures !IsEmptyInput(rules) ==>
      result == backend.distribute(
        CompilationFor(rules, optimize, advancedBlocking, advancedBlockingFormat, parsers, backend.compile),
        rulesLimit, advancedBlocking)
  {
    if |rules| == 0 || (|rules| == 1 && rules[0] == "") {
      return backend.emptyResult;
    }
    var errorsCounter := new ErrorsCounter();
    var factory := new RuleFactory(errorsCounter, parsers);
    var parsedRules := factory.CreateRules(rules);
    assert errorsCounter.count == ParseErrors(rules, parsers);
    var compiler := new Compiler(optimize, advancedBlocking, errorsCounter, backend.compile);
    var compilationResult := CompileVetted(compiler, parsedRules, advancedBlockingFormat);
    var errorsCount := errorsCounter.GetCount();
    compilationResult := compilationResult.(errorsCount := errorsCount);
    assert compilationResult
           == CompiledFor(rules, optimize, advancedBlocking, advancedBlockingFormat, parsers, backend.compile);
    var message := CreateLogMessage(compilationResult);
    compilationResult := compilationResult.(message := message);
    result := backend.distribute(compilationResult, rulesLimit, advancedBlocking);
  }
}

/** Properties of the converter. */
module ConverterProperties {
  import opened Sequences
  import opened Rules
  import opened Factory
  import opened FactoryProperties
  import opened LogMessage
  import opened Converter

  /** Vetting is a partition: every rule lands in exactly one of the two lists, none
      is duplicated into both, so the lengths and the multisets add up to the input's. */
  lemma VetPartition(rules: seq<Rule>)
    ensures |Filter(rules, IsAdvanced)| + |Filter(rules, IsSimple)| == |rules|
    ensures multiset(Filter(rules, IsAdvanced)) + multiset(Filter(rules, IsSimple)) == multiset(rules)
  {
    FilterPartition(rules, IsAdvanced, IsSimple);
  }

  /** Both lists keep the relative order of the input. */
  lemma VetKeepsOrder(rules: seq<Rule>)
    ensures IsSubsequence(Filter(rules, IsAdvanced), rules)
    ensures IsSubsequence(Filter(rules, IsSimple), rules)
  {
    FilterIsSubsequence(rules, IsAdvanced);
    FilterIsSubsequence(rules, IsSimple);
  }

  /** A rule is in the advanced list exactly when it is in the input and is a script,
      or a cosmetic rule with extended CSS or CSS injection; it is in the simple list
      exactly when it is in the input and is none of these. */
  lemma VetClassifies(rules: seq<Rule>, rule: Rule)
    ensures rule in Filter(rules, IsAdvanced) <==>
      rule in rules && (rule.isScript || (rule.CosmeticRule? && (rule.isExtendedCss || rule.isInjectCss)))
    ensures rule in Filter(rules, IsSimple) <==>
      rule in rules && !rule.isScript && !(rule.CosmeticRule? && (rule.isExtendedCss || rule.isInjectCss))
  {
    FilterMembership(rules, IsAdvanced, rule);
    FilterMembership(rules, IsSimple, rule);
  }

  /** The scriptlet flag plays no part in vetting: flipping it never moves a rule. */
  lemma ScriptletFlagIgnored(rule: Rule)
    requires rule.CosmeticRule?
    ensures IsAdvanced(rule.(isScriptlet := !rule.isScriptlet)) == IsAdvanced(rule)
  {
  }

  /** In text mode the compiler gets only the simple rules, the advanced rules are
      recorded as their texts in order, and together they account for every rule the
      factory returned, each exactly once. */
  lemma TxtModeSplit(rules: seq<string>, optimize: bool, advancedBlocking: bool,
                     parsers: Parsers, compile: (seq<Rule>, bool, bool) -> Compiled)
    ensures var parsed := CreatedRules(rules, parsers);
      var cr := CompilationFor(rules, optimize, advancedBlocking, Txt, parsers, compile);
      var advanced := Filter(parsed, IsAdvanced);
      && |cr.advancedRulesTexts| == |advanced|
      && (forall k :: 0 <= k < |advanced| ==> cr.advancedRulesTexts[k] == advanced[k].ruleText)
      && |Filter(parsed, IsSimple)| + |cr.advancedRulesTexts| == |parsed|
      && (forall r :: r in Filter(parsed, IsSimple) ==> !IsAdvanced(r))
      && cr == compile(Filter(parsed, IsSimple), optimize, advancedBlocking).result.(
                 advancedRulesTexts := RuleTexts(advanced),
                 errorsCount := cr.errorsCount,
                 message := cr.message)
  {
    var parsed := CreatedRules(rules, parsers);
    VetPartition(parsed);
    forall r | r in Filter(parsed, IsSimple) ensures !IsAdvanced(r) {
      FilterMembership(parsed, IsSimple, r);
    }
  }

  /** In JSON mode the compiler gets every rule the factory returned, and the result
      is the compiler's, advanced rule texts included, with only the error count and
      the message set afterwards. */
  lemma JsonModeCompilesAll(rules: seq<string>, optimize: bool, advancedBlocking: bool,
                            parsers: Parsers, compile: (seq<Rule>, bool, bool) -> Compiled)
    ensures var cr := CompilationFor(rules, optimize, advancedBlocking, Json, parsers, compile);
      cr == compile(CreatedRules(rules, parsers), optimize, advancedBlocking).result.(
              errorsCount := cr.errorsCount,
              message := cr.message)
  {
  }

  /** The error count of a non-empty conversion is one per normalised line that failed
      to parse plus the errors of the compiler, in either format. */
  lemma ErrorsCountIsCounterTotal(rules: seq<string>, optimize: bool, advancedBlocking: bool,
                                  format: AdvancedBlockingFormat, parsers: Parsers,
                                  compile: (seq<Rule>, bool, bool) -> Compiled)
    ensures var parsed := CreatedRules(rules, parsers);
      var input := if format == Txt then Filter(parsed, IsSimple) else parsed;
      CompilationFor(rules, optimize, advancedBlocking, format, parsers, compile).errorsCount
      == |Filter(ExpandLines(rules, parsers), FailsToParse(parsers))|
         + compile(input, optimize, advancedBlocking).errors
  {
    ParseErrorsCountFailures(ExpandLines(rules, parsers), parsers);
  }

  /** The message handed on is the summary of the result it travels with. */
  lemma MessageSummarisesResult(rules: seq<string>, optimize: bool, advancedBlocking: bool,
                                format: AdvancedBlockingFormat, parsers: Parsers,
                                compile: (seq<Rule>, bool, bool) -> Compiled)
    ensures var cr := CompilationFor(rules, optimize, advancedBlocking, format, parsers, compile);
      cr.message == CreateLogMessage(cr)
  {
  }
}
