/**
 * The converter's summary message: one line with the rule and error counts, then
 * one line per compiled bucket and one for the advanced rules kept as text.
 *
 * In the converter the message is built by a private method. It has a module of its
 * own here because it reads nothing but the compilation result, and the proof that
 * the message determines its counts needs only the decimal rendering of counts, none
 * of the parsing or vetting.
 */
module LogMessage {
  import opened Strings
  import opened Rules

  /** The number of message lines after the first one: one per bucket, then one for
      the advanced rules kept as text. */
  const LineCount := 18

  /** The name of message line `i` after the first one. */
  function LineName(i: nat): string
    requires i < LineCount
  {
    match i
    case 0 => "Basic rules: "
    case 1 => "Basic important rules: "
    case 2 => "Elemhide rules (wide): "
    case 3 => "Elemhide rules (generic domain sensitive): "
    case 4 => "Exceptions Elemhide (wide): "
    case 5 => "Elemhide rules (domain-sensitive): "
    case 6 => "CssInject rules (domain-sensitive): "
    case 7 => "Script rules: "
    case 8 => "Scriptlets rules: "
    case 9 => "Extended Css Elemhide rules (wide): "
    case 10 => "Extended Css Elemhide rules (generic domain sensitive): "
    case 11 => "Extended Css Elemhide rules (domain-sensitive): "
    case 12 => "Exceptions (elemhide): "
    case 13 => "Exceptions (important): "
    case 14 => "Exceptions (document): "
    case 15 => "Exceptions (jsinject): "
    case 16 => "Exceptions (other): "
    case _ => "Advanced rules (other): "

  }

  /** The literal text that precedes count `k` of the message: the first line reports
      the rule and error counts, every further line starts with a line break and its
      name. */
  function Label(k: nat): string
    requires k < LineCount + 2
  {
    if k == 0 then "Rules converted:  "
    else if k == 1 then " ("
    else if k == 2 then " errors)\n" + LineName(0)
    else "\n" + LineName(k - 2)
  }

  /** The literal parts of the message, in order; the counts of `Counts` go between
      them. */
  function LogLabels(): (labels: seq<string>)
    ensures |labels| == LineCount + 2
  {
    seq(LineCount + 2, k requires 0 <= k < LineCount + 2 => Label(k))
  }

  /** The counts the log message reports, in the order it reports them. */
  function Counts(cr: CompilationResult): seq<nat>
  {
    [ cr.rulesCount,
      cr.errorsCount,
      |cr.urlBlocking|,
      |cr.important|,
      |cr.cssBlockingWide|,
      |cr.cssBlockingGenericDomainSensitive|,
      |cr.cssBlockingGenericHideExceptions|,
      |cr.cssBlockingDomainSensitive|,
      |cr.cssInjects|,
      |cr.script|,
      |cr.scriptlets|,
      |cr.extendedCssBlockingWide|,
      |cr.extendedCssBlockingGenericDomainSensitive|,
      |cr.extendedCssBlockingDomainSensitive|,
      |cr.cssElemhide|,
      |cr.importantExceptions|,
      |cr.documentExceptions|,
      |cr.scriptJsInjectExceptions|,
      |cr.other|,
      |cr.advancedRulesTexts| ]
  }

  /** labels[0] + counts[0] + labels[1] + counts[1] + ... */
  function Interleave(labels: seq<string>, counts: seq<nat>): string
    requires |labels| == |counts|
  {
    if counts == [] then []
    else labels[0] + (Decimal(counts[0]) + Interleave(labels[1..], counts[1..]))
  }

  /** The summary message of a compilation result: its first line reports the rule
      and error counts. */
  function CreateLogMessage(cr: CompilationResult): (message: string)
    ensures StartsWith(message, FirstLine(cr))
  {
    MessageOpens(cr);
    Interleave(LogLabels(), Counts(cr))
  }

  /** The first line of the message, line break included. */
  function FirstLine(cr: CompilationResult): string
  {
    "Rules converted:  " + Decimal(cr.rulesCount) + " (" + Decimal(cr.errorsCount) + " errors)\n"
  }

  /** The interleaving opens with the first line of the message. */
  lemma MessageOpens(cr: CompilationResult)
    ensures StartsWith(Interleave(LogLabels(), Counts(cr)), FirstLine(cr))
  {
    var labels, counts := LogLabels(), Counts(cr);
    InterleaveOpening(labels, counts);
    assert labels[0] == "Rules converted:  " && labels[1] == " (";
    assert labels[2] == " errors)\n" + LineName(0);
    NestedPrefix(labels[0], Decimal(counts[0]), labels[1], Decimal(counts[1]), " errors)\n",
                 LineName(0), Decimal(counts[2]) + Interleave(labels[3..], counts[3..]));
  }

  /** A right-nested concatenation starts with its leading parts. */
  lemma NestedPrefix(a: string, b: string, c: string, d: string, e: string, x: string, y: string)
    ensures StartsWith(a + (b + (c + (d + ((e + x) + y)))), a + b + c + d + e)
  {
    var whole := a + (b + (c + (d + ((e + x) + y))));
    assert whole == (a + b + c + d + e) + (x + y);
    assert whole[..|a + b + c + d + e|] == a + b + c + d + e;
  }

  /** Unfolding an interleaving twice. */
  lemma InterleaveOpening(labels: seq<string>, counts: seq<nat>)
    requires |labels| == |counts| >= 3
    ensures Interleave(labels, counts)
            == labels[0] + (Decimal(counts[0]) + (labels[1] + (Decimal(counts[1])
               + Interleave(labels[2..], counts[2..]))))
    ensures Interleave(labels[2..], counts[2..])
            == labels[2] + (Decimal(counts[2]) + Interleave(labels[3..], counts[3..]))
  {
    assert labels[1..][1..] == labels[2..] && counts[1..][1..] == counts[2..];
    assert labels[2..][1..] == labels[3..] && counts[2..][1..] == counts[3..];
  }

  /** Interleaving labels that each start with a non-digit (after the first) with
      rendered counts loses nothing: equal messages have equal counts. */
  lemma {:induction false} InterleaveInjective(labels: seq<string>, a: seq<nat>, b: seq<nat>)
    requires |labels| == |a| == |b|
    requires forall k :: 1 <= k < |labels| ==> |labels[k]| > 0 && !IsDigit(labels[k][0])
    requires Interleave(labels, a) == Interleave(labels, b)
    ensures a == b
  {
    if a != [] {
      var restA := Interleave(labels[1..], a[1..]);
      var restB := Interleave(labels[1..], b[1..]);
      var whole := Interleave(labels, a);
      assert Decimal(a[0]) + restA == whole[|labels[0]|..] == Decimal(b[0]) + restB;
      if |labels| > 1 {
        assert restA[0] == labels[1][0] == restB[0];
      }
      DecimalPrefixUnique(a[0], b[0], restA, restB);
      InterleaveInjective(labels[1..], a[1..], b[1..]);
      assert a == [a[0]] + a[1..] && b == [b[0]] + b[1..];
    }
  }

  /** The log message carries every count it reports: two compilation results with
      the same message have the same rule, error, bucket and advanced-text counts. */
  lemma MessageDeterminesCounts(cr1: CompilationResult, cr2: CompilationResult)
    requires CreateLogMessage(cr1) == CreateLogMessage(cr2)
    ensures Counts(cr1) == Counts(cr2)
  {
    LabelsStartWithNonDigit();
    InterleaveInjective(LogLabels(), Counts(cr1), Counts(cr2));
  }

  /** Every label after the first starts with a space or a line break, so a count
      rendered before it ends where the label begins. */
  lemma LabelsStartWithNonDigit()
    ensures forall k :: 1 <= k < |LogLabels()| ==> |LogLabels()[k]| > 0 && !IsDigit(LogLabels()[k][0])
  {
    forall k | 1 <= k < LineCount + 2
      ensures |Label(k)| > 0 && !IsDigit(Label(k)[0])
    {
      if k >= 3 {
        assert Label(k) == "\n" + LineName(k - 2);
      }
    }
  }
}
