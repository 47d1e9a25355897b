/**
 * The rule model shared by the rule factory and the converter, the per-conversion
 * error counter, and the collaborators whose code is not part of this model
 * (the dialect normaliser, the cosmetic-marker scan, the two rule parsers, the
 * compiler and the distributor), which enter as function values.
 */
module Rules {
  import opened Wrappers

  /** A parsed rule: the line it was built from plus the capability flags the
      intake stages query. A network rule may carry the exact text of another
      rule that it cancels (`$badfilter`). */
  datatype Rule =
    | NetworkRule(ruleText: string, isScript: bool, badfilter: Option<string>)
    | CosmeticRule(ruleText: string, isScript: bool, isScriptlet: bool,
                   isExtendedCss: bool, isInjectCss: bool)

  /** A network rule with a badfilter target does not become a rule of its own. */
  predicate IsBadfilter(rule: Rule)
  {
    rule.NetworkRule? && rule.badfilter.Some?
  }

  /** Flags a successful cosmetic parse yields. */
  datatype CosmeticFlags = CosmeticFlags(isScript: bool, isScriptlet: bool,
                                         isExtendedCss: bool, isInjectCss: bool)

  /** Flags a successful network parse yields. */
  datatype NetworkFlags = NetworkFlags(isScript: bool, badfilter: Option<string>)

  /** The parsing collaborators of the rule factory. `None` from a parser stands for
      the parser throwing. `cosmeticMarkerIndex` is the position of the first cosmetic
      separator found in a line, -1 when there is none. */
  datatype Parsers = Parsers(
    convertRule: string -> seq<string>,
    cosmeticMarkerIndex: string -> int,
    parseCosmetic: string -> Option<CosmeticFlags>,
    parseNetwork: string -> Option<NetworkFlags>)

  /** Counter of lines that could not be parsed or compiled; one per conversion. */
  class ErrorsCounter {
    var count: nat

    constructor()
      ensures count == 0
    {
      count := 0;
    }

    method Add()
      modifies this
      ensures count == old(count) + 1
    {
      count := count + 1;
    }

    method GetCount() returns (c: nat)
      ensures c == count
    {
      c := count;
    }
  }

  /** A compiled entry for the target engine; its structure is not part of this model. */
  type Entry = string

  /** The compiler's buckets, in the order the log message lists them, and the
      summary fields the converter fills in. */
  datatype CompilationResult = CompilationResult(
    rulesCount: nat,
    errorsCount: nat,
    message: string,
    advancedRulesTexts: seq<string>,
    urlBlocking: seq<Entry>,
    important: seq<Entry>,
    cssBlockingWide: seq<Entry>,
    cssBlockingGenericDomainSensitive: seq<Entry>,
    cssBlockingGenericHideExceptions: seq<Entry>,
    cssBlockingDomainSensitive: seq<Entry>,
    cssInjects: seq<Entry>,
    script: seq<Entry>,
    scriptlets: seq<Entry>,
    extendedCssBlockingWide: seq<Entry>,
    extendedCssBlockingGenericDomainSensitive: seq<Entry>,
    extendedCssBlockingDomainSensitive: seq<Entry>,
    cssElemhide: seq<Entry>,
    importantExceptions: seq<Entry>,
    documentExceptions: seq<Entry>,
    scriptJsInjectExceptions: seq<Entry>,
    other: seq<Entry>)

  /** What one compilation yields: the buckets, and how many errors the compiler
      added to the shared counter while producing them. */
  datatype Compiled = Compiled(result: CompilationResult, errors: nat)

  /** The compiling and distributing collaborators of the converter. `R` is the
      conversion result handed to the output layer; `None` stands for a throw. */
  datatype Backend<R> = Backend(
    emptyResult: Option<R>,
    compile: (seq<Rule>, bool, bool) -> Compiled,
    distribute: (CompilationResult, nat, bool) -> Option<R>)

  /** The compiler, configured once and sharing the conversion's error counter. */
  class Compiler {
    const optimize: bool
    const advancedBlocking: bool
    const errorsCounter: ErrorsCounter
    const compile: (seq<Rule>, bool, bool) -> Compiled

    constructor(optimize: bool, advancedBlocking: bool, errorsCounter: ErrorsCounter,
                compile: (seq<Rule>, bool, bool) -> Compiled)
      ensures this.optimize == optimize && this.advancedBlocking == advancedBlocking
      ensures this.errorsCounter == errorsCounter && this.compile == compile
    {
      this.optimize := optimize;
      this.advancedBlocking := advancedBlocking;
      this.errorsCounter := errorsCounter;
      this.compile := compile;
    }

    /** Compiles `rules`; the errors it meets go to the shared counter. */
    method CompileRules(rules: seq<Rule>) returns (result: CompilationResult)
      modifies errorsCounter
      ensures result == compile(rules, optimize, advancedBlocking).result
      ensures errorsCounter.count
              == old(errorsCounter.count) + compile(rules, optimize, advancedBlocking).errors
    {
      var compiled := compile(rules, optimize, advancedBlocking);
      errorsCounter.count := errorsCounter.count + compiled.errors;
      result := compiled.result;
    }
  }
}
