# Rule intake of the AdGuard-to-Safari content-blocker converter

This project models, in Dafny, the first half of the converter that turns
AdGuard-style filter lists into Safari content-blocker rules: the rule factory,
which turns raw filter lines into rule objects, and the converter's entry point,
which splits the parsed rules and hands them to the compiler and the distributor.

- **Rule factory** (`rule_factory.dfy`, module `Factory`, class `RuleFactory`).
  Every raw line is first expanded by the dialect normaliser into zero or more
  lines. Each of those lines is then either skipped, parsed into a rule, or counted
  as an error. A line is skipped when it is empty, a `!` comment, starts with a
  space, has `" - "` after its first character, or is shorter than three
  characters. A network rule carrying a `$badfilter` target is set aside: only its
  target text is kept. A second pass, run once every line is parsed, drops every
  rule whose text equals one of those targets. Because of that second pass, a
  badfilter line cancels its target wherever it stands in the list.
- **Vetting and orchestration** (`converter.dfy`, module `Converter`). `VetRules`
  splits rules into advanced ones (scripts, and cosmetic rules with extended CSS or
  CSS injection) and simple ones, keeping the input order. `ConvertArray` runs one
  conversion in this order:
  1. An empty input returns the empty result at once.
  2. The lines are parsed with a fresh error counter.
  3. In text mode, only the simple rules are compiled, and the texts of the advanced
     rules are recorded.
  4. The counter's total becomes the error count.
  5. The summary message is built.
  6. The result goes to the distributor.
- **Shared model** (`rules.dfy`, module `Rules`): the `Rule` sum type (network or
  cosmetic), the per-conversion `ErrorsCounter` class, the `CompilationResult`
  record with its seventeen buckets, and the collaborators this model does not
  look inside. Those collaborators enter as function values: the normaliser, the
  cosmetic-marker scan, the two rule parsers, the compiler, the distributor and the
  empty result.
- **Summary message** (`log_message.dfy`, module `LogMessage`). The message is
  its literal parts interleaved with twenty counts: the rule count, the error count,
  the seventeen bucket sizes and the number of advanced rule texts. Because every
  literal part after the first starts with a space or a line break, the message
  determines every count it reports.
- `sequences.dfy` holds the order-keeping filter that both the badfilter pass and
  vetting are, with its lemmas. `strings.dfy` holds the prefix test, the
  first-occurrence search and the decimal rendering of counts.

The methods `CreateRules`, `ApplyBadFilterExceptions`, `CreateRule`, `VetRules`,
`CompileVetted` and `ConvertArray` follow the loops and branches of the Swift code.
Each is proved against a specification function (`CreatedRules`, `Filter`,
`ParseOutcome`, `CompileStep`, `CompilationFor`). The lemmas in modules `FactoryProperties` and
`ConverterProperties` then state the promised properties about those functions.

Three points where the model follows what the code does rather than what its
comments or its shape might suggest:

- **Each rule goes to exactly one list.** `vetRules`
  (`Sources/ContentBlockerConverter/ContentBlockerConverter.swift:25-42`) appends
  every rule either to the advanced list or to the simple one. No exception rule is
  copied into both lists (`VetPartition`).
- **Scriptlets follow the script flag.** The comments at
  `ContentBlockerConverter.swift:5` and `:21-23` list scriptlets among the advanced
  rules, but line 29 reads `rule.isScript || rule.isScript`. A scriptlet is
  therefore advanced only through its script flag (`ScriptletFlagIgnored`).
- **The error counter is passed explicitly.** `RuleFactory.swift:73` adds to a
  global `ErrorsCounter.instance`, but `ContentBlockerConverter.swift:67` hands the
  factory a fresh counter. The model takes the second form: the factory holds the
  counter it was built with, and one conversion uses one counter.

## Model

| member | source | states |
|---|---|---|
| `Factory.RuleFactory.CreateRules` | Sources/ContentBlockerConverter/Rules/RuleFactory.swift:13-36 | the nested loops over lines and normalised lines return exactly `CreatedRules(lines)` (first pass, then badfilter pass) and add exactly the number of failed lines to the counter |
| `Factory.RuleFactory.ApplyBadFilterExceptions` | Sources/ContentBlockerConverter/Rules/RuleFactory.swift:41-50 | the loop returns the input rules whose text is not a target, in input order (`Filter` with `NotCancelled`) |
| `Factory.RuleFactory.CreateRule` | Sources/ContentBlockerConverter/Rules/RuleFactory.swift:55-76 | nil text and skipped lines give `None` with the counter unchanged; a parse failure gives `None` and adds exactly one; a parsed line gives that rule |
| `Factory.ParseOutcome` | Sources/ContentBlockerConverter/Rules/RuleFactory.swift:55-81 | a line is skipped exactly when it meets a skip condition; a parsed rule carries the line as its text, has at least three characters, is cosmetic exactly when the marker scan found a separator, and carries exactly the flags (and badfilter target) its parser returned |
| `Factory.MarkerChoosesParser` | Sources/ContentBlockerConverter/Rules/RuleFactory.swift:64-81 | the marker scan (`isCosmetic`) picks the parser: a rule-shaped line with a separator goes to the cosmetic parser, any other to the network parser, and the line fails exactly when the chosen parser throws |
| `Factory.IsSkipped` | Sources/ContentBlockerConverter/Rules/RuleFactory.swift:57-63 | a line is skipped exactly when it is shorter than three, starts with `!` or a space, or contains `" - "` anywhere (an occurrence at index 0 is already a leading space) |
| `Strings.IndexOf` | Sources/ContentBlockerConverter/Rules/RuleFactory.swift:57 | -1 exactly when the target does not occur; otherwise the first index where it occurs |
| `FactoryProperties.ApplyBadFilterKeepsOrder` | Sources/ContentBlockerConverter/Rules/RuleFactory.swift:41-50 | the badfilter pass returns an order-preserving subsequence of its input |
| `FactoryProperties.ApplyBadFilterSelects` | Sources/ContentBlockerConverter/Rules/RuleFactory.swift:43-47 | a rule is in the output iff it is in the input and its text is not a target; a rule whose text is not a target is kept as many times as it occurs |
| `FactoryProperties.ApplyBadFilterNoTargets` | Sources/ContentBlockerConverter/Rules/RuleFactory.swift:43-47 | with no targets the pass is the identity |
| `FactoryProperties.ApplyBadFilterIdempotent` | Sources/ContentBlockerConverter/Rules/RuleFactory.swift:41-50 | applying the pass twice with the same targets equals applying it once |
| `FactoryProperties.CollectFacts` | Sources/ContentBlockerConverter/Rules/RuleFactory.swift:17-33 | after the first pass no kept rule is a badfilter rule; every parsed badfilter rule has its target in the side list and every other parsed rule is kept; conversely every kept rule was parsed from some line and every target was named by some badfilter line; kept + targets + errors never exceed the lines |
| `FactoryProperties.ParseErrorsCountFailures` | Sources/ContentBlockerConverter/Rules/RuleFactory.swift:71-74 | the error tally is exactly the number of normalised lines whose parse fails |
| `FactoryProperties.CollectIsParsedRules` | Sources/ContentBlockerConverter/Rules/RuleFactory.swift:17-33 | the kept list is exactly the parsed non-badfilter rules in line order, and the side list exactly the targets of the parsed badfilter rules in line order |
| `FactoryProperties.CreatedRulesFacts` | Sources/ContentBlockerConverter/Rules/RuleFactory.swift:17-35 | the factory returns no badfilter rule and no rule whose text is a collected target; every rule has at least three characters; the result is exactly the parsed rules that survive both passes, in line order; there are at most as many rules as normalised lines |
| `FactoryProperties.RemovedIffNamed` | Sources/ContentBlockerConverter/Rules/RuleFactory.swift:22-50 | a parsed non-badfilter rule is missing from the result exactly when some line is a badfilter rule naming its text: nothing is removed that no line names |
| `FactoryProperties.BadfilterCancelsWherever` | Sources/ContentBlockerConverter/Rules/RuleFactory.swift:22-35 | no rule with a badfilter line's target text survives, wherever that line stands |
| `FactoryProperties.EarlierRuleCancelledByLaterBadfilter` | Sources/ContentBlockerConverter/Rules/RuleFactory.swift:17-35 | a rule already collected before a later badfilter line naming it is still absent from the result |
| `Rules.ErrorsCounter.constructor` | Sources/ContentBlockerConverter/ContentBlockerConverter.swift:65 | a new counter starts at zero |
| `Factory.RuleFactory.constructor` | Sources/ContentBlockerConverter/ContentBlockerConverter.swift:67 | the factory holds the counter and the collaborators it is given |
| `Rules.Compiler.constructor` | Sources/ContentBlockerConverter/ContentBlockerConverter.swift:69-73 | the compiler holds the flags, the shared counter and the compile function it is given |
| `Rules.ErrorsCounter.Add` | Sources/ContentBlockerConverter/Rules/RuleFactory.swift:73 | adds exactly one |
| `Rules.ErrorsCounter.GetCount` | Sources/ContentBlockerConverter/ContentBlockerConverter.swift:89 | returns the current count |
| `Rules.Compiler.CompileRules` | Sources/ContentBlockerConverter/ContentBlockerConverter.swift:69-86 | the compiler's result for the configured flags; its errors go to the shared counter |
| `Converter.IsAdvanced` | Sources/ContentBlockerConverter/ContentBlockerConverter.swift:29-32 | a rule is advanced exactly when its script flag is set, or it is cosmetic with extended CSS or CSS injection |
| `Converter.VetRules` | Sources/ContentBlockerConverter/ContentBlockerConverter.swift:25-42 | the loop returns the advanced rules and the simple rules, each in input order (`Filter` with `IsAdvanced` / `IsSimple`) |
| `ConverterProperties.VetPartition` | Sources/ContentBlockerConverter/ContentBlockerConverter.swift:28-39 | each rule lands in exactly one list: lengths and multisets add up to the input's (no exception is duplicated) |
| `ConverterProperties.VetKeepsOrder` | Sources/ContentBlockerConverter/ContentBlockerConverter.swift:28-38 | both lists are order-preserving subsequences of the input |
| `ConverterProperties.VetClassifies` | Sources/ContentBlockerConverter/ContentBlockerConverter.swift:29-37 | advanced iff script, or cosmetic with extended CSS or CSS injection; simple iff none of these |
| `ConverterProperties.ScriptletFlagIgnored` | Sources/ContentBlockerConverter/ContentBlockerConverter.swift:29 | the scriptlet flag never changes which list a rule goes to |
| `Converter.RuleTexts` | Sources/ContentBlockerConverter/ContentBlockerConverter.swift:83 | one text per rule, same order, same length |
| `Converter.CompileVetted` | Sources/ContentBlockerConverter/ContentBlockerConverter.swift:77-87 | the branch returns the compile step's result (`CompileStep`: in text mode the simple rules compiled and the advanced rules' texts recorded, otherwise every rule compiled) and adds the compiler's errors to the counter |
| `Converter.IsEmptyInput` | Sources/ContentBlockerConverter/ContentBlockerConverter.swift:60 | the input is empty exactly when it has no lines or is a single empty line |
| `Converter.ConvertArray` | Sources/ContentBlockerConverter/ContentBlockerConverter.swift:47-102 | no lines or one empty line give the empty result; otherwise the distributor's result for `CompilationFor` with the given limit |
| `ConverterProperties.TxtModeSplit` | Sources/ContentBlockerConverter/ContentBlockerConverter.swift:77-83 | in text mode the result is the compiler's result on exactly the simple rules, with the advanced rules' texts (in order) as its advanced texts; compiled + advanced account for every parsed rule once |
| `ConverterProperties.JsonModeCompilesAll` | Sources/ContentBlockerConverter/ContentBlockerConverter.swift:84-87 | in JSON mode the result is the compiler's result on every rule the factory returned, its advanced texts included; only the error count and the message are set afterwards |
| `ConverterProperties.ErrorsCountIsCounterTotal` | Sources/ContentBlockerConverter/ContentBlockerConverter.swift:84-89 | in both formats the error count is the failed lines plus the compiler's errors |
| `ConverterProperties.MessageSummarisesResult` | Sources/ContentBlockerConverter/ContentBlockerConverter.swift:89-93 | the message set on the result is built from that same result |
| `LogMessage.CreateLogMessage` | Sources/ContentBlockerConverter/ContentBlockerConverter.swift:104-126 | the message opens with `Rules converted:  `, the rule count, ` (`, the error count and ` errors)` on a line of its own |
| `LogMessage.MessageDeterminesCounts` | Sources/ContentBlockerConverter/ContentBlockerConverter.swift:104-126 | the message carries every count it reports: equal messages mean equal rule, error, bucket and advanced-text counts |
| `LogMessage.InterleaveInjective` | Sources/ContentBlockerConverter/ContentBlockerConverter.swift:105-123 | labels that start with a non-digit, interleaved with rendered counts, determine the counts |
| `LogMessage.LabelsStartWithNonDigit` | Sources/ContentBlockerConverter/ContentBlockerConverter.swift:105-123 | every literal part of the message after the first begins with a space or a line break, never a digit |
| `Strings.Decimal` | Sources/ContentBlockerConverter/ContentBlockerConverter.swift:105-123 | a count is rendered as a non-empty run of decimal digits |
| `Strings.DecimalRoundTrip` | Sources/ContentBlockerConverter/ContentBlockerConverter.swift:105 | reading back a rendered count gives the count |

## Left out

- The command-line wrapper (`Sources/CommandLineWrapper/main.swift`) is not part of this model: argument parsing, reading stdin, writing stdout, stderr and files, and JSON encoding are I/O.
- Logging (`NSLog`, `Logger.log`) is left out: it never affects control flow.
- The assignment of the Safari version to the global `SafariService.current` is left out. The version enters only as its rule limit, a plain `rulesLimit` input with no default, so the default version `.safari13` and its limit are not modelled. Unsupported versions are rejected by the caller before `convertArray` runs. The other defaults are kept: `optimize` and `advancedBlocking` default to false, the format to JSON.
- The internals of `RuleConverter`, `CosmeticRuleMarker`, the `CosmeticRule` and `NetworkRule` parsers, `Compiler`, `Distributor` and `ConversionResult` are not part of this model. They are function values, and a throw is `None`. A parsed rule's text is the line it was parsed from.
- The conversion result type is a type parameter: its fields are not modelled.
- The compiler's increments of the shared counter are modelled as a count that the compile function reports, which `Compiler.CompileRules` adds to the counter.
- Rule flags that neither stage reads (document, CSS and JS-inject exceptions, domains, patterns) are not modelled.
- Swift strings are modelled as sequences of code points. `count` is therefore the sequence length, not the number of grapheme clusters. The same holds for the two comparisons the factory makes:
  - The badfilter match (`firstIndex(of:)`, `RuleFactory.swift:44`) compares code points. Swift compares strings by canonical equivalence, so a precomposed and a decomposed accent match in Swift but not in the model.
  - The `!` and space prefix tests (`RuleFactory.swift:57`) compare code points. Swift compares whole Characters, so a `!` followed by a combining mark is a comment in the model but not in Swift.
- `do`/`catch` becomes an `Option` result: `None` where the Swift code returns `nil`.
