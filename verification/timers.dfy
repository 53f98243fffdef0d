/**
 * The Schedule model's timer bookkeeping: the pre-save hook `schedule_saved`, which
 * deletes the cron and interval timers a schedule references and creates new ones
 * from its definitions.
 *
 * The hook is modelled twice: as the value-level specification `Saved`, about which
 * the lemmas below are proved, and as the method `TimerStore.ScheduleSaved`, which
 * updates a `Schedule` object and the two timer tables in place and is proved to
 * agree with `Saved`.
 */
module Timers {
  import opened Wrappers
  import opened PyText
  import opened Validators

  /** The primary key of a row in a timer table. */
  type TimerId = int

  /** A row of the cron timer table. */
  datatype CrontabSchedule = CrontabSchedule(
    minute: string, hour: string, dayOfWeek: string, dayOfMonth: string, monthOfYear: string)

  /** A row of the interval timer table. */
  datatype IntervalSchedule = IntervalSchedule(every: int, period: string)

  /** The errors that escape the hook and abort the save. */
  datatype SaveError =
    | CronTimerMissing(id: TimerId)            // the referenced cron row is gone and cannot be deleted
    | IntervalTimerMissing(id: TimerId)        // the referenced interval row is gone and cannot be deleted
    | CronRejected(reason: string)             // the cron parser raised
    | IntervalUnpackFailed(definition: string) // the definition did not split into two tokens
    | IntervalEveryNotInt(every: string)       // its first token is not an integer

  /** The cron timer row built from what the parser reports. */
  function CrontabFrom(f: CronFields): CrontabSchedule {
    CrontabSchedule(f.minute, f.hour, f.weekday, f.day, f.month)
  }

  /** The interval timer row the hook builds from an interval definition. */
  function IntervalFrom(definition: string): Result<IntervalSchedule, SaveError> {
    var tokens := Split(definition);
    if |tokens| != 2 then Failure(IntervalUnpackFailed(definition))
    else match ParseInt(Unicode, tokens[0])
      case None => Failure(IntervalEveryNotInt(tokens[0]))
      case Some(every) => Success(IntervalSchedule(every, tokens[1]))
  }

  /** The text of an interval timer, as a client would write its definition. */
  function IntervalText(t: IntervalSchedule): string {
    FormatInt(t.every) + " " + t.period
  }

  /** Building a row from the text of a row gives that row back: "1 minutes" gives every 1, period "minutes". */
  lemma {:induction false} IntervalFromText(t: IntervalSchedule)
    requires IsWord(t.period)
    ensures IntervalFrom(IntervalText(t)) == Success(t)
  {
    FormatIntIsWord(t.every);
    SplitPair(FormatInt(t.every), t.period);
    ParseFormatRoundTrip(Unicode, t.every);
  }

  /** A definition the field validator accepts never makes the hook raise, and its period is an accepted one. */
  lemma {:induction false} ValidatedIntervalBuilds(definition: string)
    requires ValidateInterval(definition) == Pass
    ensures IntervalFrom(definition).Success?
    ensures IntervalFrom(definition).value.period in Periods
    ensures ParseInt(Unicode, Split(definition)[0]) == Some(IntervalFrom(definition).value.every)
  {
  }

  /** The hook itself does not check the period: "1 weeks" builds a row the validator would refuse. */
  lemma {:induction false} UnknownPeriodBuilds()
    ensures IntervalFrom("1 weeks") == Success(IntervalSchedule(1, "weeks"))
    ensures ValidateInterval("1 weeks") == Fail(NotAPeriod("1 weeks"))
  {
    assert IsWord("weeks") && IsWord("1");
    SplitPair("1", "weeks");
    assert "1" + " " + "weeks" == "1 weeks";
    assert IsDigits("1") && DigitsValue("1") == 1;
    assert "weeks" !in Periods;
  }

  /** What the hook reads and writes of a schedule: its two definitions and two timer references. */
  datatype Bindings = Bindings(
    cronDefinition: Option<string>, intervalDefinition: Option<string>,
    cronRef: Option<TimerId>, intervalRef: Option<TimerId>)

  /** The two timer tables and the next primary key each will hand out. */
  datatype Tables = Tables(
    crontabs: map<TimerId, CrontabSchedule>, intervals: map<TimerId, IntervalSchedule>,
    nextCronId: TimerId, nextIntervalId: TimerId)

  /** Primary keys come from a sequence: every key in use is below the next one. */
  ghost predicate IdsBelowNext(t: Tables) {
    && (forall id :: id in t.crontabs ==> id < t.nextCronId)
    && (forall id :: id in t.intervals ==> id < t.nextIntervalId)
  }

  /** Every reference the schedule holds is a key the sequences have handed out. */
  ghost predicate RefsIssued(b: Bindings, t: Tables) {
    && (b.cronRef.Some? ==> b.cronRef.value < t.nextCronId)
    && (b.intervalRef.Some? ==> b.intervalRef.value < t.nextIntervalId)
  }

  datatype SaveResult = SaveResult(bindings: Bindings, tables: Tables, outcome: Outcome<SaveError>)

  /**
   * The first step: delete the cron timer when both the definition and the reference
   * are set. A reference whose row is gone cannot be followed and deleted, so the
   * hook raises there.
   */
  function DeleteCron(b: Bindings, t: Tables): SaveResult {
    if b.cronDefinition.Some? && b.cronRef.Some? then
      if b.cronRef.value in t.crontabs then SaveResult(b, t.(crontabs := t.crontabs - {b.cronRef.value}), Pass)
      else SaveResult(b, t, Fail(CronTimerMissing(b.cronRef.value)))
    else SaveResult(b, t, Pass)
  }

  /** The second step: the same for the interval timer. */
  function DeleteInterval(b: Bindings, t: Tables): SaveResult {
    if b.intervalDefinition.Some? && b.intervalRef.Some? then
      if b.intervalRef.value in t.intervals then SaveResult(b, t.(intervals := t.intervals - {b.intervalRef.value}), Pass)
      else SaveResult(b, t, Fail(IntervalTimerMissing(b.intervalRef.value)))
    else SaveResult(b, t, Pass)
  }

  /** Whether the cron deletion raises: the referenced cron row is not in its table. */
  predicate CronDeleteRaises(b: Bindings, t: Tables) {
    b.cronDefinition.Some? && b.cronRef.Some? && b.cronRef.value !in t.crontabs
  }

  /** Whether the interval deletion raises: the referenced interval row is not in its table. */
  predicate IntervalDeleteRaises(b: Bindings, t: Tables) {
    b.intervalDefinition.Some? && b.intervalRef.Some? && b.intervalRef.value !in t.intervals
  }

  /** The third step: a cron definition without a cron reference gets a new cron timer. */
  function CreateCron(b: Bindings, t: Tables, parse: CronParser): SaveResult {
    if b.cronDefinition.Some? && b.cronRef.None? then
      match parse(b.cronDefinition.value)
      case Failure(reason) => SaveResult(b, t, Fail(CronRejected(reason)))
      case Success(fields) =>
        var id := t.nextCronId;
        SaveResult(b.(cronRef := Some(id)),
                   t.(crontabs := t.crontabs[id := CrontabFrom(fields)], nextCronId := id + 1),
                   Pass)
    else SaveResult(b, t, Pass)
  }

  /** The fourth step: an interval definition without an interval reference gets a new interval timer. */
  function CreateInterval(b: Bindings, t: Tables): SaveResult {
    if b.intervalDefinition.Some? && b.intervalRef.None? then
      match IntervalFrom(b.intervalDefinition.value)
      case Failure(e) => SaveResult(b, t, Fail(e))
      case Success(row) =>
        var id := t.nextIntervalId;
        SaveResult(b.(intervalRef := Some(id)),
                   t.(intervals := t.intervals[id := row], nextIntervalId := id + 1),
                   Pass)
    else SaveResult(b, t, Pass)
  }

  /** Whether the cron step raises. */
  predicate CronRaises(b: Bindings, parse: CronParser) {
    b.cronDefinition.Some? && b.cronRef.None? && parse(b.cronDefinition.value).Failure?
  }

  /** Whether the interval step raises: the definition does not build a row. */
  predicate IntervalRaises(b: Bindings) {
    b.intervalDefinition.Some? && b.intervalRef.None? && IntervalFrom(b.intervalDefinition.value).Failure?
  }

  /** The four steps from the deletions on, each run only when the previous one passed. */
  function RunSteps(b: Bindings, t: Tables, created: Bindings, parse: CronParser): SaveResult {
    var afterCronDelete := DeleteCron(b, t);
    if afterCronDelete.outcome.Fail? then afterCronDelete
    else
      var afterDelete := DeleteInterval(b, afterCronDelete.tables);
      if afterDelete.outcome.Fail? then afterDelete
      else
        var afterCron := CreateCron(created, afterDelete.tables, parse);
        if afterCron.outcome.Fail? then afterCron
        else CreateInterval(afterCron.bindings, afterCron.tables)
  }

  /**
   * The whole hook, as written: the deletions leave the references set, so a reference
   * that was set before the call is never replaced. The first step that raises stops
   * the hook; the steps before it stay done.
   */
  function Saved(b: Bindings, t: Tables, parse: CronParser): (r: SaveResult)
    ensures r.bindings.cronDefinition == b.cronDefinition
    ensures r.bindings.intervalDefinition == b.intervalDefinition
    ensures b.cronRef.Some? ==> r.bindings.cronRef == b.cronRef
    ensures b.intervalRef.Some? ==> r.bindings.intervalRef == b.intervalRef
    ensures r.outcome.Fail? <==>
      CronDeleteRaises(b, t) || IntervalDeleteRaises(b, t) || CronRaises(b, parse) || IntervalRaises(b)
  {
    RunSteps(b, t, b, parse)
  }

  /** The hook keeps primary keys, and the references it hands out, below the sequences' next values. */
  lemma {:induction false} SavedKeepsIdsBelowNext(b: Bindings, t: Tables, parse: CronParser)
    requires IdsBelowNext(t) && RefsIssued(b, t)
    ensures IdsBelowNext(Saved(b, t, parse).tables)
    ensures RefsIssued(Saved(b, t, parse).bindings, Saved(b, t, parse).tables)
  {
  }

  /**
   * A cron definition with no cron reference, when the interval deletion does not
   * raise: exactly one cron timer is added, under a
   * key not in use before, holding the parsed fields, and the schedule references it.
   * "25 * * * *" thus gets a timer whose minute is the parser's "25".
   */
  lemma {:induction false} SavedCreatesCron(b: Bindings, t: Tables, parse: CronParser)
    requires IdsBelowNext(t)
    requires b.cronDefinition.Some? && b.cronRef.None?
    requires !IntervalDeleteRaises(b, t)
    requires parse(b.cronDefinition.value).Success?
    ensures var r := Saved(b, t, parse);
      var id := t.nextCronId;
      && id !in t.crontabs
      && r.bindings.cronRef == Some(id)
      && r.tables.crontabs == t.crontabs[id := CrontabFrom(parse(b.cronDefinition.value).value)]
      && r.tables.crontabs[id].minute == parse(b.cronDefinition.value).value.minute
  {
  }

  /**
   * An interval definition with no interval reference, when neither cron step
   * raises: exactly one interval timer is added, under a key not in use before, whose
   * `every` is the integer of the first token and whose `period` is the second token.
   */
  lemma {:induction false} SavedCreatesInterval(b: Bindings, t: Tables, parse: CronParser)
    requires IdsBelowNext(t)
    requires b.intervalDefinition.Some? && b.intervalRef.None?
    requires !CronDeleteRaises(b, t) && !CronRaises(b, parse)
    requires IntervalFrom(b.intervalDefinition.value).Success?
    ensures var r := Saved(b, t, parse);
      var id := t.nextIntervalId;
      var tokens := Split(b.intervalDefinition.value);
      && id !in t.intervals
      && r.bindings.intervalRef == Some(id)
      && r.tables.intervals == t.intervals[id := IntervalFrom(b.intervalDefinition.value).value]
      && |tokens| == 2
      && ParseInt(Unicode, tokens[0]) == Some(r.tables.intervals[id].every)
      && r.tables.intervals[id].period == tokens[1]
  {
  }

  /**
   * A definition whose timer is already referenced, and still in its table: that
   * timer is deleted, the reference is left pointing at it, and no timer of that kind
   * is created, so after the call the schedule refers to a row that no longer exists.
   */
  lemma {:induction false} ResaveLeavesDanglingRef(b: Bindings, t: Tables, parse: CronParser)
    requires !CronDeleteRaises(b, t) && !IntervalDeleteRaises(b, t)
    ensures var r := Saved(b, t, parse);
      && (b.cronDefinition.Some? && b.cronRef.Some? ==>
            && r.bindings.cronRef == b.cronRef
            && r.tables.crontabs == t.crontabs - {b.cronRef.value}
            && r.tables.nextCronId == t.nextCronId
            && b.cronRef.value !in r.tables.crontabs)
      && (b.intervalDefinition.Some? && b.intervalRef.Some? ==>
            && r.bindings.intervalRef == b.intervalRef
            && r.tables.intervals == t.intervals - {b.intervalRef.value}
            && r.tables.nextIntervalId == t.nextIntervalId
            && b.intervalRef.value !in r.tables.intervals)
  {
  }

  /**
   * Once a save has left a reference dangling, saving the schedule again raises in
   * the deletion step of that kind and changes nothing after it.
   */
  lemma {:induction false} ResaveThenRaises(b: Bindings, t: Tables, parse: CronParser)
    requires !CronDeleteRaises(b, t) && !IntervalDeleteRaises(b, t)
    requires b.cronDefinition.Some? && b.cronRef.Some?
    requires Saved(b, t, parse).outcome == Pass
    ensures var r := Saved(b, t, parse);
      var again := Saved(r.bindings, r.tables, parse);
      && again.outcome == Fail(CronTimerMissing(b.cronRef.value))
      && again.bindings == r.bindings
      && again.tables == r.tables
  {
    ResaveLeavesDanglingRef(b, t, parse);
  }

  /** A kind whose definition is None keeps its reference, its table and its key sequence. */
  lemma {:induction false} UndefinedKindUntouched(b: Bindings, t: Tables, parse: CronParser)
    ensures var r := Saved(b, t, parse);
      && (b.cronDefinition.None? ==>
            r.bindings.cronRef == b.cronRef && r.tables.crontabs == t.crontabs && r.tables.nextCronId == t.nextCronId)
      && (b.intervalDefinition.None? ==>
            r.bindings.intervalRef == b.intervalRef && r.tables.intervals == t.intervals
            && r.tables.nextIntervalId == t.nextIntervalId)
  {
  }

  /** The cron outcome depends on the cron inputs only, as long as the interval deletion does not raise. */
  lemma {:induction false} CronIndependentOfInterval(b1: Bindings, t1: Tables, b2: Bindings, t2: Tables, parse: CronParser)
    requires b1.cronDefinition == b2.cronDefinition && b1.cronRef == b2.cronRef
    requires t1.crontabs == t2.crontabs && t1.nextCronId == t2.nextCronId
    requires !IntervalDeleteRaises(b1, t1) && !IntervalDeleteRaises(b2, t2)
    ensures var r1, r2 := Saved(b1, t1, parse), Saved(b2, t2, parse);
      && r1.bindings.cronRef == r2.bindings.cronRef
      && r1.tables.crontabs == r2.tables.crontabs
      && r1.tables.nextCronId == r2.tables.nextCronId
  {
  }

  /** The interval outcome depends on the interval inputs only, as long as neither cron step raises. */
  lemma {:induction false} IntervalIndependentOfCron(b1: Bindings, t1: Tables, b2: Bindings, t2: Tables, parse: CronParser)
    requires b1.intervalDefinition == b2.intervalDefinition && b1.intervalRef == b2.intervalRef
    requires t1.intervals == t2.intervals && t1.nextIntervalId == t2.nextIntervalId
    requires !CronDeleteRaises(b1, t1) && !CronDeleteRaises(b2, t2)
    requires !CronRaises(b1, parse) && !CronRaises(b2, parse)
    ensures var r1, r2 := Saved(b1, t1, parse), Saved(b2, t2, parse);
      && r1.bindings.intervalRef == r2.bindings.intervalRef
      && r1.tables.intervals == r2.tables.intervals
      && r1.tables.nextIntervalId == r2.tables.nextIntervalId
  {
  }

  /**
   * Definitions the field validators accept never make the hook raise, and a schedule
   * saved with no references ends up referencing a timer of each kind it defines, the
   * interval one carrying an accepted period.
   */
  lemma {:induction false} ValidatedFirstSaveBinds(b: Bindings, t: Tables, parse: CronParser)
    requires b.cronDefinition.Some? ==> ValidateCrontab(b.cronDefinition.value, parse) == Pass
    requires b.intervalDefinition.Some? ==> ValidateInterval(b.intervalDefinition.value) == Pass
    requires b.cronRef.None? && b.intervalRef.None?
    ensures var r := Saved(b, t, parse);
      && r.outcome == Pass
      && (b.cronDefinition.Some? ==> r.bindings.cronRef.Some? && r.bindings.cronRef.value in r.tables.crontabs)
      && (b.intervalDefinition.Some? ==>
            && r.bindings.intervalRef.Some?
            && r.bindings.intervalRef.value in r.tables.intervals
            && r.tables.intervals[r.bindings.intervalRef.value].period in Periods)
  {
    if b.intervalDefinition.Some? {
      ValidatedIntervalBuilds(b.intervalDefinition.value);
    }
  }

  /**
   * The hook with the reference cleared after each deletion, so that a changed
   * definition gets a timer of its own in the same call.
   */
  function SavedSwapping(b: Bindings, t: Tables, parse: CronParser): SaveResult {
    var released := b.(cronRef := if b.cronDefinition.Some? then None else b.cronRef,
                       intervalRef := if b.intervalDefinition.Some? then None else b.intervalRef);
    RunSteps(b, t, released, parse)
  }

  /**
   * With the reference cleared, a successful save leaves every defined kind bound to a
   * timer that exists, and the timer it replaced is gone.
   */
  lemma {:induction false} SwappingNeverDangles(b: Bindings, t: Tables, parse: CronParser)
    requires IdsBelowNext(t) && RefsIssued(b, t)
    requires SavedSwapping(b, t, parse).outcome == Pass
    ensures var r := SavedSwapping(b, t, parse);
      && (b.cronDefinition.Some? ==>
            && r.bindings.cronRef.Some? && r.bindings.cronRef.value in r.tables.crontabs
            && (b.cronRef.Some? ==> b.cronRef.value !in r.tables.crontabs))
      && (b.intervalDefinition.Some? ==>
            && r.bindings.intervalRef.Some? && r.bindings.intervalRef.value in r.tables.intervals
            && (b.intervalRef.Some? ==> b.intervalRef.value !in r.tables.intervals))
  {
  }

  /** A schedule row; only the fields the hook and the trigger command use are modelled. */
  class Schedule {
    var cronDefinition: Option<string>
    var intervalDefinition: Option<string>
    var cronRef: Option<TimerId>
    var intervalRef: Option<TimerId>
    var enabled: bool

    /** A schedule not yet saved: no timer references. */
    constructor (cronDefinition: Option<string>, intervalDefinition: Option<string>, enabled: bool)
      ensures this.cronDefinition == cronDefinition && this.intervalDefinition == intervalDefinition
      ensures cronRef == None && intervalRef == None
      ensures this.enabled == enabled
    {
      this.cronDefinition := cronDefinition;
      this.intervalDefinition := intervalDefinition;
      this.cronRef := None;
      this.intervalRef := None;
      this.enabled := enabled;
    }

    function CurrentBindings(): Bindings
      reads this
    {
      Bindings(cronDefinition, intervalDefinition, cronRef, intervalRef)
    }
  }

  /** The cron and interval timer tables. */
  class TimerStore {
    var crontabs: map<TimerId, CrontabSchedule>
    var intervals: map<TimerId, IntervalSchedule>
    var nextCronId: TimerId
    var nextIntervalId: TimerId

    function CurrentTables(): Tables
      reads this
    {
      Tables(crontabs, intervals, nextCronId, nextIntervalId)
    }

    ghost predicate Valid()
      reads this
    {
      IdsBelowNext(CurrentTables())
    }

    /** Empty tables whose keys start at 1. */
    constructor ()
      ensures Valid()
      ensures crontabs == map[] && intervals == map[]
      ensures nextCronId == 1 && nextIntervalId == 1
    {
      crontabs := map[];
      intervals := map[];
      nextCronId := 1;
      nextIntervalId := 1;
    }

    /**
     * `schedule_saved`: runs before `s` is written. Deletes, then creates, in the
     * source's order, and stops at the first error.
     */
    method ScheduleSaved(s: Schedule, parse: CronParser) returns (outcome: Outcome<SaveError>)
      requires Valid()
      modifies this, s
      ensures Valid()
      ensures s.enabled == old(s.enabled)
      ensures SaveResult(s.CurrentBindings(), CurrentTables(), outcome)
           == Saved(old(s.CurrentBindings()), old(CurrentTables()), parse)
    {
      if s.cronDefinition.Some? && s.cronRef.Some? {
        if s.cronRef.value !in crontabs {
          return Fail(CronTimerMissing(s.cronRef.value));
        }
        crontabs := crontabs - {s.cronRef.value};
      }
      if s.intervalDefinition.Some? && s.intervalRef.Some? {
        if s.intervalRef.value !in intervals {
          return Fail(IntervalTimerMissing(s.intervalRef.value));
        }
        intervals := intervals - {s.intervalRef.value};
      }
      if s.cronDefinition.Some? && s.cronRef.None? {
        match parse(s.cronDefinition.value) {
          case Failure(reason) =>
            return Fail(CronRejected(reason));
          case Success(fields) =>
            var id := nextCronId;
            crontabs := crontabs[id := CrontabFrom(fields)];
            nextCronId := id + 1;
            s.cronRef := Some(id);
        }
      }
      if s.intervalDefinition.Some? && s.intervalRef.None? {
        match IntervalFrom(s.intervalDefinition.value) {
          case Failure(e) =>
            return Fail(e);
          case Success(row) =>
            var id := nextIntervalId;
            intervals := intervals[id := row];
            nextIntervalId := id + 1;
            s.intervalRef := Some(id);
        }
      }
      outcome := Pass;
    }
  }
}
