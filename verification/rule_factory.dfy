/**
 * The rule factory: turns raw filter lines into rules, dropping lines that are not
 * rules, counting lines that fail to parse, and cancelling rules named by
 * `$badfilter` network rules once every line has been parsed.
 */
module Factory {
  import opened Wrappers
  import opened Sequences
  import opened Strings
  import opened Rules

  /** What the factory makes of one line. */
  datatype Outcome = Skipped | Parsed(rule: Rule) | Failed

  /** Lines that are dropped without being parsed: empty lines, `!` comments, lines
      starting with a space, lines with " - " after their first character, and lines
      shorter than three characters. Restated without the search index, the " - "
      clause catches every occurrence, since one at index 0 already means a leading
      space. */
  predicate IsSkipped(text: string)
    ensures IsSkipped(text) <==>
      || |text| < 3
      || text[0] == '!'
      || text[0] == ' '
      || exists i :: OccursAt(text, " - ", i)
  {
    assert |text| >= 3 ==> (StartsWith(text, "!") <==> text[0] == '!');
    assert |text| >= 3 ==> (StartsWith(text, " ") <==> text[0] == ' ');
    assert IndexOf(text, " - ") == 0 ==> text[0] == ' ';
    || text == ""
    || StartsWith(text, "!")
    || StartsWith(text, " ")
    || IndexOf(text, " - ") > 0
    || |text| < 3
  }

  /** The cosmetic-marker scan: a line is cosmetic when some separator was found. */
  predicate IsCosmetic(text: string, parsers: Parsers)
  {
    parsers.cosmeticMarkerIndex(text) != -1
  }

  /** The outcome of creating a rule from one line. */
  function ParseOutcome(text: string, parsers: Parsers): (o: Outcome)
    ensures o.Skipped? <==> IsSkipped(text)
    ensures o.Parsed? ==> o.rule.ruleText == text && |text| >= 3
    ensures o.Parsed? ==> (o.rule.CosmeticRule? <==> IsCosmetic(text, parsers))
    ensures o.Parsed? && o.rule.CosmeticRule? ==>
      (parsers.parseCosmetic(text)
       == Some(CosmeticFlags(o.rule.isScript, o.rule.isScriptlet, o.rule.isExtendedCss, o.rule.isInjectCss)))
    ensures o.Parsed? && o.rule.NetworkRule? ==>
      (parsers.parseNetwork(text) == Some(NetworkFlags(o.rule.isScript, o.rule.badfilter)))
  {
    if IsSkipped(text) then Skipped
    else if IsCosmetic(text, parsers) then
      match parsers.parseCosmetic(text)
      case Some(f) => Parsed(CosmeticRule(text, f.isScript, f.isScriptlet, f.isExtendedCss, f.isInjectCss))
      case None => Failed
    else
      match parsers.parseNetwork(text)
      case Some(f) => Parsed(NetworkRule(text, f.isScript, f.badfilter))
      case None => Failed
  }

  /** The marker scan chooses the parser: a rule-shaped line goes to the cosmetic
      parser when a separator was found and to the network parser otherwise, and the
      line fails exactly when the chosen parser throws. */
  lemma MarkerChoosesParser(text: string, parsers: Parsers)
    requires !IsSkipped(text)
    ensures IsCosmetic(text, parsers) ==>
      && (ParseOutcome(text, parsers).Failed? <==> parsers.parseCosmetic(text).None?)
      && (ParseOutcome(text, parsers).Parsed? ==> ParseOutcome(text, parsers).rule.CosmeticRule?)
    ensures !IsCosmetic(text, parsers) ==>
      && (ParseOutcome(text, parsers).Failed? <==> parsers.parseNetwork(text).None?)
      && (ParseOutcome(text, parsers).Parsed? ==> ParseOutcome(text, parsers).rule.NetworkRule?)
    ensures ParseOutcome(text, parsers).Parsed? || ParseOutcome(text, parsers).Failed?
  {
  }

  /** The lines left after the dialect normaliser, in order. */
  function ExpandLines(lines: seq<string>, parsers: Parsers): seq<string>
  {
    if lines == [] then []
    else ExpandLines(lines[..|lines| - 1], parsers) + parsers.convertRule(lines[|lines| - 1])
  }

  /** The state of the first pass: rules kept so far, badfilter targets collected so
      far, parse errors counted so far. */
  datatype Collected = Collected(rules: seq<Rule>, badfilterRules: seq<string>, errors: nat)

  function Step(c: Collected, text: string, parsers: Parsers): Collected
  {
    match ParseOutcome(text, parsers)
    case Skipped => c
    case Failed => c.(errors := c.errors + 1)
    case Parsed(rule) =>
      if IsBadfilter(rule) then c.(badfilterRules := c.badfilterRules + [rule.badfilter.value])
      else c.(rules := c.rules + [rule])
  }

  /** The first pass continued from `start` over `texts`. */
  function CollectFrom(start: Collected, texts: seq<string>, parsers: Parsers): Collected
  {
    if texts == [] then start
    else Step(CollectFrom(start, texts[..|texts| - 1], parsers), texts[|texts| - 1], parsers)
  }

  /** The first pass over the normalised lines. */
  function Collect(texts: seq<string>, parsers: Parsers): Collected
  {
    CollectFrom(Collected([], [], 0), texts, parsers)
  }

  /** The rules parsed from `texts`, in line order, badfilter rules included. */
  function ParsedRules(texts: seq<string>, parsers: Parsers): seq<Rule>
  {
    if texts == [] then []
    else
      var init := ParsedRules(texts[..|texts| - 1], parsers);
      match ParseOutcome(texts[|texts| - 1], parsers)
      case Parsed(rule) => init + [rule]
      case _ => init
  }

  /** The targets named by the badfilter rules among `rules`, in order. */
  function Targets(rules: seq<Rule>): seq<string>
  {
    if rules == [] then []
    else
      var last := rules[|rules| - 1];
      Targets(rules[..|rules| - 1]) + (if IsBadfilter(last) then [last.badfilter.value] else [])
  }

  /** The first pass keeps every parsed rule that is not a badfilter rule. */
  predicate KeptByFirstPass(rule: Rule)
  {
    !IsBadfilter(rule)
  }

  /** A rule survives the second pass when its text is not a collected target. */
  function NotCancelled(badfilterRules: seq<string>): Rule -> bool
  {
    (rule: Rule) => rule.ruleText !in badfilterRules
  }

  /** The rules the factory returns for `lines`. */
  function CreatedRules(lines: seq<string>, parsers: Parsers): seq<Rule>
  {
    var c := Collect(ExpandLines(lines, parsers), parsers);
    Filter(c.rules, NotCancelled(c.badfilterRules))
  }

  /** The number of errors the factory adds to the counter for `lines`. */
  function ParseErrors(lines: seq<string>, parsers: Parsers): nat
  {
    Collect(ExpandLines(lines, parsers), parsers).errors
  }

  class RuleFactory {
    const errorsCounter: ErrorsCounter
    const parsers: Parsers

    constructor(errorsCounter: ErrorsCounter, parsers: Parsers)
      ensures this.errorsCounter == errorsCounter && this.parsers == parsers
    {
      this.errorsCounter := errorsCounter;
      this.parsers := parsers;
    }

    /** Creates the rules of `lines`: parses every normalised line, sets badfilter
        rules aside as targets, then drops every rule whose text is a target. */
    method CreateRules(lines: seq<string>) returns (rules: seq<Rule>)
      modifies errorsCounter
      ensures rules == CreatedRules(lines, parsers)
      ensures errorsCounter.count == old(errorsCounter.count) + ParseErrors(lines, parsers)
    {
      var result: seq<Rule> := [];
      var badfilterRules: seq<string> := [];
      ghost var c := Collected([], [], 0);
      for i := 0 to |lines|
        invariant c == Collect(ExpandLines(lines[..i], parsers), parsers)
        invariant result == c.rules && badfilterRules == c.badfilterRules
        invariant errorsCounter.count == old(errorsCounter.count) + c.errors
      {
        var convertedLines := parsers.convertRule(lines[i]);
        ghost var start := c;
        for j := 0 to |convertedLines|
          invariant c == CollectFrom(start, convertedLines[..j], parsers)
          invariant result == c.rules && badfilterRules == c.badfilterRules
          invariant errorsCounter.count == old(errorsCounter.count) + c.errors
        {
          var rule := CreateRule(Some(convertedLines[j]));
          StepByRule(c, convertedLines[j], parsers, rule);
          CollectFromStep(start, convertedLines, j, parsers);
          c := Step(c, convertedLines[j], parsers);
          if rule.Some? {
            if rule.value.NetworkRule? {
              if rule.value.badfilter.Some? {
                badfilterRules := badfilterRules + [rule.value.badfilter.value];
                continue;
              }
            }
            result := result + [rule.value];
          }
        }
        CollectLine(lines, i, parsers);
        assert convertedLines[..|convertedLines|] == convertedLines;
      }
      assert lines[..|lines|] == lines;
      rules := ApplyBadFilterExceptions(result, badfilterRules);
    }

    /** Drops every rule whose text equals one of `badfilterRules`, keeping the order. */
    static method ApplyBadFilterExceptions(rules: seq<Rule>, badfilterRules: seq<string>)
      returns (result: seq<Rule>)
      ensures result == Filter(rules, NotCancelled(badfilterRules))
    {
      result := [];
      for i := 0 to |rules|
        invariant result == Filter(rules[..i], NotCancelled(badfilterRules))
      {
        FilterPrefixStep(rules, i, NotCancelled(badfilterRules));
        if rules[i].ruleText !in badfilterRules {
          result := result + [rules[i]];
        }
      }
      assert rules[..|rules|] == rules;
    }

    /** Creates one rule; `None` for a line that is skipped or does not parse, and a
        line that does not parse adds one to the error counter. */
    method CreateRule(ruleText: Option<string>) returns (rule: Option<Rule>)
      modifies errorsCounter
      ensures ruleText.None? ==> rule.None? && errorsCounter.count == old(errorsCounter.count)
      ensures ruleText.Some? ==>
        var o := ParseOutcome(ruleText.value, parsers);
        && rule == (if o.Parsed? then Some(o.rule) else None)
        && errorsCounter.count == old(errorsCounter.count) + (if o.Failed? then 1 else 0)
    {
      if || ruleText.None?
         || ruleText.value == ""
         || StartsWith(ruleText.value, "!")
         || StartsWith(ruleText.value, " ")
         || IndexOf(ruleText.value, " - ") > 0
      {
        return None;
      }
      var text := ruleText.value;
      if |text| < 3 {
        return None;
      }
      if IsCosmetic(text, parsers) {
        var flags := parsers.parseCosmetic(text);
        if flags.Some? {
          var f := flags.value;
          return Some(CosmeticRule(text, f.isScript, f.isScriptlet, f.isExtendedCss, f.isInjectCss));
        }
      } else {
        var flags := parsers.parseNetwork(text);
        if flags.Some? {
          return Some(NetworkRule(text, flags.value.isScript, flags.value.badfilter));
        }
      }
      errorsCounter.Add();
      return None;
    }
  }

  /** One step of the first pass, in terms of what creating the rule returned. */
  lemma StepByRule(c: Collected, text: string, parsers: Parsers, rule: Option<Rule>)
    requires rule == (var o := ParseOutcome(text, parsers); if o.Parsed? then Some(o.rule) else None)
    ensures Step(c, text, parsers).errors
            == c.errors + (if ParseOutcome(text, parsers).Failed? then 1 else 0)
    ensures Step(c, text, parsers).rules
            == (if rule.Some? && !IsBadfilter(rule.value) then c.rules + [rule.value] else c.rules)
    ensures Step(c, text, parsers).badfilterRules
            == (if rule.Some? && IsBadfilter(rule.value)
                then c.badfilterRules + [rule.value.badfilter.value]
                else c.badfilterRules)
  {
  }

  lemma CollectFromStep(start: Collected, texts: seq<string>, j: nat, parsers: Parsers)
    requires j < |texts|
    ensures CollectFrom(start, texts[..j + 1], parsers)
            == Step(CollectFrom(start, texts[..j], parsers), texts[j], parsers)
  {
    assert texts[..j + 1][..j] == texts[..j];
  }

  lemma {:induction false} CollectAppend(start: Collected, a: seq<string>, b: seq<string>, parsers: Parsers)
    ensures CollectFrom(start, a + b, parsers) == CollectFrom(CollectFrom(start, a, parsers), b, parsers)
  {
    if b != [] {
      CollectAppend(start, a, b[..|b| - 1], parsers);
      assert (a + b)[..|a + b| - 1] == a + b[..|b| - 1];
    } else {
      assert a + b == a;
    }
  }

  lemma CollectLine(lines: seq<string>, i: nat, parsers: Parsers)
    requires i < |lines|
    ensures Collect(ExpandLines(lines[..i + 1], parsers), parsers)
            == CollectFrom(Collect(ExpandLines(lines[..i], parsers), parsers),
                           parsers.convertRule(lines[i]), parsers)
  {
    assert lines[..i + 1][..i] == lines[..i];
    CollectAppend(Collected([], [], 0), ExpandLines(lines[..i], parsers), parsers.convertRule(lines[i]), parsers);
  }
}

/** Properties of the rule factory. */
module FactoryProperties {
  import opened Wrappers
  import opened Sequences
  import opened Rules
  import opened Factory

  /** The badfilter pass keeps the surviving rules in their input order. */
  lemma ApplyBadFilterKeepsOrder(rules: seq<Rule>, badfilterRules: seq<string>)
    ensures IsSubsequence(Filter(rules, NotCancelled(badfilterRules)), rules)
  {
    FilterIsSubsequence(rules, NotCancelled(badfilterRules));
  }

  /** The badfilter pass removes exactly the rules whose text is a target: such a rule
      does not occur in the output, and any other rule occurs as often as in the input. */
  lemma ApplyBadFilterSelects(rules: seq<Rule>, badfilterRules: seq<string>, rule: Rule)
    ensures rule in Filter(rules, NotCancelled(badfilterRules))
            <==> rule in rules && rule.ruleText !in badfilterRules
    ensures rule.ruleText !in badfilterRules ==>
            multiset(Filter(rules, NotCancelled(badfilterRules)))[rule] == multiset(rules)[rule]
  {
    FilterMembership(rules, NotCancelled(badfilterRules), rule);
    FilterMultiplicity(rules, NotCancelled(badfilterRules), rule);
  }

  /** With no targets the badfilter pass returns its input unchanged. */
  lemma ApplyBadFilterNoTargets(rules: seq<Rule>)
    ensures Filter(rules, NotCancelled([])) == rules
  {
    FilterKeepsAll(rules, NotCancelled([]));
  }

  /** Applying the badfilter pass twice with the same targets is applying it once. */
  lemma ApplyBadFilterIdempotent(rules: seq<Rule>, badfilterRules: seq<string>)
    ensures var once := Filter(rules, NotCancelled(badfilterRules));
            Filter(once, NotCancelled(badfilterRules)) == once
  {
    FilterIdempotent(rules, NotCancelled(badfilterRules));
  }

  /** The first pass, restated over the parsed rules: it keeps the parsed rules that
      are not badfilter rules and collects the targets of the others, both in line
      order. */
  lemma {:induction false} CollectIsParsedRules(texts: seq<string>, parsers: Parsers)
    ensures var c := Collect(texts, parsers);
      && c.rules == Filter(ParsedRules(texts, parsers), KeptByFirstPass)
      && c.badfilterRules == Targets(ParsedRules(texts, parsers))
  {
    if texts != [] {
      var init := texts[..|texts| - 1];
      CollectIsParsedRules(init, parsers);
      var o := ParseOutcome(texts[|texts| - 1], parsers);
      if o.Parsed? {
        var parsed := ParsedRules(texts, parsers);
        assert parsed[..|parsed| - 1] == ParsedRules(init, parsers);
      }
    }
  }

  /** A rule is parsed from `texts` exactly when some line parses to it. */
  lemma {:induction false} ParsedRulesMembership(texts: seq<string>, parsers: Parsers, rule: Rule)
    ensures rule in ParsedRules(texts, parsers) <==>
            exists i :: 0 <= i < |texts| && ParseOutcome(texts[i], parsers) == Parsed(rule)
  {
    if texts != [] {
      var init := texts[..|texts| - 1];
      ParsedRulesMembership(init, parsers, rule);
      assert forall i :: 0 <= i < |init| ==> texts[i] == init[i];
      if exists i :: 0 <= i < |texts| && ParseOutcome(texts[i], parsers) == Parsed(rule) {
        var i :| 0 <= i < |texts| && ParseOutcome(texts[i], parsers) == Parsed(rule);
        if i < |init| {
          assert ParseOutcome(init[i], parsers) == Parsed(rule);
        }
      }
    }
  }

  /** A target is collected exactly when some badfilter rule among `rules` names it. */
  lemma {:induction false} TargetsMembership(rules: seq<Rule>, target: string)
    ensures target in Targets(rules) <==>
            exists rule :: rule in rules && IsBadfilter(rule) && rule.badfilter.value == target
  {
    if rules != [] {
      var init := rules[..|rules| - 1];
      TargetsMembership(init, target);
      assert rules == init + [rules[|rules| - 1]];
    }
  }

  /** What the first pass gathers: no kept rule is a badfilter rule and every kept rule
      has at least three characters of text; every parsed badfilter rule contributes
      its target and every other parsed rule is kept; conversely every kept rule was
      parsed from some line and every target was named by a badfilter line; each line
      feeds at most one of the three tallies. */
  lemma CollectFacts(texts: seq<string>, parsers: Parsers)
    ensures var c := Collect(texts, parsers);
      && (forall r :: r in c.rules ==> !IsBadfilter(r) && |r.ruleText| >= 3)
      && |c.rules| + |c.badfilterRules| + c.errors <= |texts|
      && (forall i :: 0 <= i < |texts| && ParseOutcome(texts[i], parsers).Parsed? ==>
            var rule := ParseOutcome(texts[i], parsers).rule;
            if IsBadfilter(rule) then rule.badfilter.value in c.badfilterRules else rule in c.rules)
      && (forall r :: r in c.rules ==>
            exists i :: 0 <= i < |texts| && ParseOutcome(texts[i], parsers) == Parsed(r))
      && (forall t :: t in c.badfilterRules ==>
            exists i :: 0 <= i < |texts| && ParsesToBadfilter(texts[i], parsers, t))
  {
    var c := Collect(texts, parsers);
    var parsed := ParsedRules(texts, parsers);
    FirstPassTallies(texts, parsers);
    CollectIsParsedRules(texts, parsers);
    forall r | r in c.rules
      ensures exists i :: 0 <= i < |texts| && ParseOutcome(texts[i], parsers) == Parsed(r)
    {
      FilterMembership(parsed, KeptByFirstPass, r);
      ParsedRulesMembership(texts, parsers, r);
    }
    forall t | t in c.badfilterRules
      ensures exists i :: 0 <= i < |texts| && ParsesToBadfilter(texts[i], parsers, t)
    {
      TargetsMembership(parsed, t);
      var rule :| rule in parsed && IsBadfilter(rule) && rule.badfilter.value == t;
      ParsedRulesMembership(texts, parsers, rule);
      var i :| 0 <= i < |texts| && ParseOutcome(texts[i], parsers) == Parsed(rule);
      assert ParsesToBadfilter(texts[i], parsers, t);
    }
  }

  /** A line that parses to a badfilter rule naming `target`. */
  predicate ParsesToBadfilter(text: string, parsers: Parsers, target: string)
  {
    var o := ParseOutcome(text, parsers);
    o.Parsed? && IsBadfilter(o.rule) && o.rule.badfilter.value == target
  }

  /** The forward half of `CollectFacts`, by induction over the lines. */
  lemma {:induction false} FirstPassTallies(texts: seq<string>, parsers: Parsers)
    ensures var c := Collect(texts, parsers);
      && (forall r :: r in c.rules ==> !IsBadfilter(r) && |r.ruleText| >= 3)
      && |c.rules| + |c.badfilterRules| + c.errors <= |texts|
      && (forall i :: 0 <= i < |texts| && ParseOutcome(texts[i], parsers).Parsed? ==>
            var rule := ParseOutcome(texts[i], parsers).rule;
            if IsBadfilter(rule) then rule.badfilter.value in c.badfilterRules else rule in c.rules)
  {
    if texts != [] {
      var init := texts[..|texts| - 1];
      FirstPassTallies(init, parsers);
      assert forall i :: 0 <= i < |init| ==> texts[i] == init[i];
    }
  }

  /** A line that fails to parse. */
  function FailsToParse(parsers: Parsers): string -> bool
  {
    (text: string) => ParseOutcome(text, parsers).Failed?
  }

  /** The counter grows by exactly one per normalised line that fails to parse. */
  lemma {:induction false} ParseErrorsCountFailures(texts: seq<string>, parsers: Parsers)
    ensures Collect(texts, parsers).errors == |Filter(texts, FailsToParse(parsers))|
  {
    if texts != [] {
      ParseErrorsCountFailures(texts[..|texts| - 1], parsers);
    }
  }

  /** What the factory returns: no badfilter rule, no rule cancelled by a collected
      target, every rule with at least three characters of text, exactly the parsed
      rules that survive both passes in line order, and no more rules than normalised
      lines. */
  lemma CreatedRulesFacts(lines: seq<string>, parsers: Parsers)
    ensures var texts := ExpandLines(lines, parsers);
      var c := Collect(texts, parsers);
      var out := CreatedRules(lines, parsers);
      && (forall r :: r in out ==>
            !IsBadfilter(r) && |r.ruleText| >= 3 && r.ruleText !in c.badfilterRules)
      && out == Filter(ParsedRules(texts, parsers), SurvivesBothPasses(c.badfilterRules))
      && IsSubsequence(out, ParsedRules(texts, parsers))
      && |out| <= |texts|
  {
    var texts := ExpandLines(lines, parsers);
    var c := Collect(texts, parsers);
    var parsed := ParsedRules(texts, parsers);
    CollectFacts(texts, parsers);
    CollectIsParsedRules(texts, parsers);
    FilterCompose(parsed, KeptByFirstPass, NotCancelled(c.badfilterRules), SurvivesBothPasses(c.badfilterRules));
    FilterIsSubsequence(parsed, SurvivesBothPasses(c.badfilterRules));
    forall r | r in CreatedRules(lines, parsers)
      ensures r in c.rules && r.ruleText !in c.badfilterRules
    {
      ApplyBadFilterSelects(c.rules, c.badfilterRules, r);
    }
  }

  /** A parsed rule that is not a badfilter rule survives both passes. */
  function SurvivesBothPasses(badfilterRules: seq<string>): Rule -> bool
  {
    (rule: Rule) => KeptByFirstPass(rule) && rule.ruleText !in badfilterRules
  }

  /** The factory removes a parsed rule exactly when some line is a badfilter rule
      naming its text: it removes nothing that no line names. */
  lemma RemovedIffNamed(lines: seq<string>, parsers: Parsers, i: nat)
    requires i < |ExpandLines(lines, parsers)|
    requires ParseOutcome(ExpandLines(lines, parsers)[i], parsers).Parsed?
    requires !IsBadfilter(ParseOutcome(ExpandLines(lines, parsers)[i], parsers).rule)
    ensures var texts := ExpandLines(lines, parsers);
      var rule := ParseOutcome(texts[i], parsers).rule;
      rule !in CreatedRules(lines, parsers) <==>
        exists j :: 0 <= j < |texts| && ParsesToBadfilter(texts[j], parsers, rule.ruleText)
  {
    var texts := ExpandLines(lines, parsers);
    var c := Collect(texts, parsers);
    var rule := ParseOutcome(texts[i], parsers).rule;
    CollectFacts(texts, parsers);
    ApplyBadFilterSelects(c.rules, c.badfilterRules, rule);
    if exists j :: 0 <= j < |texts| && ParsesToBadfilter(texts[j], parsers, rule.ruleText) {
      var j :| 0 <= j < |texts| && ParsesToBadfilter(texts[j], parsers, rule.ruleText);
      assert ParseOutcome(texts[j], parsers).Parsed?;
    }
  }

  /** A badfilter line cancels its target wherever it stands among the lines. */
  lemma BadfilterCancelsWherever(lines: seq<string>, parsers: Parsers, j: nat)
    requires j < |ExpandLines(lines, parsers)|
    requires ParseOutcome(ExpandLines(lines, parsers)[j], parsers).Parsed?
    requires IsBadfilter(ParseOutcome(ExpandLines(lines, parsers)[j], parsers).rule)
    ensures var target := ParseOutcome(ExpandLines(lines, parsers)[j], parsers).rule.badfilter.value;
      forall r :: r in CreatedRules(lines, parsers) ==> r.ruleText != target
  {
    CollectFacts(ExpandLines(lines, parsers), parsers);
    CreatedRulesFacts(lines, parsers);
  }

  /** A rule already collected when a later badfilter line naming it is reached is
      still absent from the result: the second pass runs after every line is parsed. */
  lemma EarlierRuleCancelledByLaterBadfilter(lines: seq<string>, parsers: Parsers, i: nat, j: nat)
    requires i < j < |ExpandLines(lines, parsers)|
    requires ParseOutcome(ExpandLines(lines, parsers)[i], parsers).Parsed?
    requires !IsBadfilter(ParseOutcome(ExpandLines(lines, parsers)[i], parsers).rule)
    requires ParseOutcome(ExpandLines(lines, parsers)[j], parsers).Parsed?
    requires ParseOutcome(ExpandLines(lines, parsers)[j], parsers).rule.NetworkRule?
    requires ParseOutcome(ExpandLines(lines, parsers)[j], parsers).rule.badfilter
             == Some(ExpandLines(lines, parsers)[i])
    ensures var texts := ExpandLines(lines, parsers);
      var rule := ParseOutcome(texts[i], parsers).rule;
      && rule in Collect(texts[..j], parsers).rules
      && rule !in CreatedRules(lines, parsers)
  {
    var texts := ExpandLines(lines, parsers);
    CollectFacts(texts[..j], parsers);
    assert texts[..j][i] == texts[i];
    BadfilterCancelsWherever(lines, parsers, j);
  }
}
