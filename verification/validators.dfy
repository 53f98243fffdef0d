/**
 * The field validators of the Schedule model: `validate_crontab`, which rephrases the
 * cron parser's error, and `validate_interval`, which checks "<integer> <period>".
 */
module Validators {
  import opened Wrappers
  import opened PyText

  /** The period names an interval definition may use. */
  const Periods: seq<string> := ["days", "hours", "minutes", "seconds", "microseconds"]

  /** The field texts the cron parser reports for an expression it accepts. */
  datatype CronFields = CronFields(minute: string, hour: string, weekday: string, day: string, month: string)

  /**
   * The third-party cron parser, left uninterpreted: the fields it parsed, or the text
   * of the ValueError it raised.
   */
  type CronParser = string -> Result<CronFields, string>

  /** `validate_crontab`: accept what the parser accepts, otherwise report its reason. */
  function ValidateCrontab(value: string, parse: CronParser): (r: Outcome<string>)
    ensures r.Pass? <==> parse(value).Success?
    ensures r.Fail? ==> r.error == value + " is not a valid crontab string: " + parse(value).error
  {
    match parse(value)
    case Success(_) => Pass
    case Failure(reason) => Fail(value + " is not a valid crontab string: " + reason)
  }

  /** The two distinct errors `validate_interval` raises, each naming the rejected value. */
  datatype IntervalError = NotAnInterval(value: string) | NotAPeriod(value: string) {
    function Message(): string {
      match this
      case NotAnInterval(v) =>
        v + " is not a valid interval string: integer and period (from: days, hours, "
        + "minutes, seconds, microseconds) e.g. 1 minutes"
      case NotAPeriod(v) =>
        v + " is not a valid period. Accepted: days, hours, minutes, seconds, microseconds)"
    }
  }

  /**
   * `validate_interval`. Unpacking the split into two names and `int()` raise ValueError,
   * which becomes the generic error; the unknown-period error is not a ValueError and so
   * escapes the `except` unchanged.
   */
  function ValidateInterval(value: string): (r: Outcome<IntervalError>)
    ensures r.Pass? <==>
      var tokens := Split(value);
      |tokens| == 2 && ParseInt(Unicode, tokens[0]).Some? && tokens[1] in Periods
    ensures r == Fail(NotAPeriod(value)) <==>
      var tokens := Split(value);
      |tokens| == 2 && ParseInt(Unicode, tokens[0]).Some? && tokens[1] !in Periods
    ensures r.Fail? ==> r.error.value == value
  {
    var tokens := Split(value);
    if |tokens| != 2 || ParseInt(Unicode, tokens[0]).None? then Fail(NotAnInterval(value))
    else if tokens[1] !in Periods then Fail(NotAPeriod(value))
    else Pass
  }

  /**
   * Two blank-separated words, whatever the blanks around them: the first decides
   * between the generic error and the rest, the second between the period error and
   * acceptance.
   */
  lemma {:induction false} IntervalOfTwoWords(ws1: string, every: string, ws2: string, period: string, ws3: string)
    requires AllBlank(Unicode, ws1) && AllBlank(Unicode, ws2) && AllBlank(Unicode, ws3) && |ws2| > 0
    requires IsWord(every) && IsWord(period)
    ensures var value := ws1 + every + ws2 + period + ws3;
      ValidateInterval(value) ==
        if ParseInt(Unicode, every).None? then Fail(NotAnInterval(value))
        else if period in Periods then Pass
        else Fail(NotAPeriod(value))
  {
    SplitTwoWords(ws1, every, ws2, period, ws3);
  }

  lemma {:induction false} PeriodsAreWords()
    ensures forall p :: p in Periods ==> IsWord(p)
  {
    assert IsWord("days") && IsWord("hours") && IsWord("minutes");
    assert IsWord("seconds") && IsWord("microseconds");
  }

  /** Every integer followed by an accepted period, such as "1 minutes" or "-3 days", is valid. */
  lemma {:induction false} CanonicalIntervalAccepted(every: int, period: string)
    requires period in Periods
    ensures ValidateInterval(FormatInt(every) + " " + period) == Pass
  {
    FormatIntIsWord(every);
    PeriodsAreWords();
    ParseFormatRoundTrip(Unicode, every);
    SplitPair(FormatInt(every), period);
  }

  /** A first token that is not an integer gives the generic error, whatever follows it. */
  lemma {:induction false} NonIntegerFirstTokenRejected(first: string, rest: string)
    requires IsWord(first) && ParseInt(Unicode, first).None?
    requires rest == [] || IsSpace(rest[0])
    ensures ValidateInterval(first + rest) == Fail(NotAnInterval(first + rest))
  {
    SplitFirstWord(first, rest);
  }

  lemma {:induction false} NotAnIntegerEvery()
    ensures IsWord("every") && ParseInt(Unicode, "every").None?
  {
    assert DropBlanks(Unicode, "every") == "every";
    assert DropTrailingBlanks(Unicode, "every") == "every";
  }

  /** "every one mins" is rejected with the generic interval error, not the period error. */
  lemma {:induction false} EveryOneMinsRejected()
    ensures ValidateInterval("every one mins") == Fail(NotAnInterval("every one mins"))
  {
    var first, rest := "every", " one mins";
    assert first + rest == "every one mins";
    NotAnIntegerEvery();
    NonIntegerFirstTokenRejected(first, rest);
  }
}
