# seed-scheduler: timer bookkeeping and trigger parsing, in Dafny

This project models the sequential core of the seed-scheduler service.

The scheduler stores *schedules*. Each one has an optional cron definition ("25 * * * *") and an optional interval definition ("1 minutes"). Each definition is bound to a row of a shared timer table: a cron timer or an interval timer. An external periodic-task runner fires those timers. A management command then finds the schedules bound to a fired timer and works out where their messages go.

The modelled parts:

- **Field validators** (`Validators`). `validate_crontab` wraps a cron parser and rephrases its error. `validate_interval` accepts exactly "<integer> <period>", where the period is one of days, hours, minutes, seconds or microseconds. It has two distinct errors.
- **The pre-save hook** (`Timers`). `schedule_saved` deletes the timers a schedule references and then creates new ones from its definitions.
  - `Schedule` is a class holding the two definitions, the two timer references and the `enabled` flag.
  - `TimerStore` is a class holding the two timer tables as maps, plus the next key each table will hand out.
  - `TimerStore.ScheduleSaved` performs the hook in place. It is proved equal to the value-level specification `Timers.Saved`, and the lemmas are stated about that specification.
- **The trigger command's pure parts** (`Trigger`):
  - `get_schedule` turns "crontab:3" or "interval:7" into the enabled schedules bound to that timer.
  - `get_addresses` picks an identity's addresses for its preferred address type.
  - `parse_sbm_api_url` splits a subscription's send endpoint into the API base URL and the subscription id.
- **Python built-ins the code relies on** (`PyText`): `str.split()`, `str.partition(':')` and base-10 `int()`, plus `str(n)` for stating round trips.
  - `split()` treats Python 2.7's Unicode whitespace as blank, as for the unicode values the models' fields hold.
  - `int()` is modelled for both kinds of Python 2 string. A unicode field value skips every Unicode blank. The byte-string command-line argument of `get_schedule` skips only C's ASCII blanks.
  - `int()` accepts blanks between the sign and the digits, so `int("- 5")` is -5.

The cron parser comes from a third-party package. It is a function parameter (`Validators.CronParser`): it returns the parsed field texts, or the message of the ValueError it raises. The URL parser is also left out: `parse_sbm_api_url` takes the scheme, host and path as inputs.

Three facts about the code are easy to get wrong:

- **Replacing a timer is not a swap.** `schedule_saved` deletes the timer a schedule references but leaves the reference set, so it never binds a new one. A later save of the same schedule then raises, because the referenced row is gone (see Findings).
- **There are two interval errors.** `validate_interval` raises a generic error for a malformed string. It raises a separate "is not a valid period" error for an unknown period, which its `except ValueError` does not catch.
- **There is no firing logic here.** These files contain no run counter, no auto-disable and no delivery or retry code.

## Model

| member | source | states |
|---|---|---|
| `PyText.SplitPair` | scheduler/models.py:27 | `"<a> <b>".split()` is exactly `[a, b]` for any two blank-free words |
| `PyText.ParseFormatRoundTrip` | scheduler/models.py:28 | `int()` applied to the decimal text of any integer gives that integer back, negatives and zero included, for unicode and byte strings alike |
| `PyText.SignApartFromDigits` | scheduler/management/commands/trigger_deliver_tasks.py:16 | a sign, then any blanks, then digits is an integer: `int("- 5")` is -5 and `int("+ 5")` is 5 |
| `PyText.NoBreakSpaceDependsOnKind` | scheduler/management/commands/trigger_deliver_tasks.py:16-18 | a no-break space before "7" is skipped by `int()` of a unicode string (giving 7) but makes `int()` of a byte string fail |
| `PyText.PartitionAfterHead` | scheduler/management/commands/trigger_deliver_tasks.py:14 | `partition(':')` splits at the first colon only: a colon-free head comes back as the kind and everything after the colon as the lookup id |
| `Validators.ValidateCrontab` | scheduler/models.py:15-22 | accepts exactly what the cron parser accepts; a rejection's message is exactly "<value> is not a valid crontab string: <reason>", with the parser's reason |
| `Validators.ValidateInterval` | scheduler/models.py:25-42 | passes iff there are exactly two tokens, the first parses as an integer and the second is one of the five periods; "not a valid period" is raised iff the first two conditions hold and the period is unknown; every error names the value |
| `Validators.IntervalOfTwoWords` | scheduler/models.py:25-42 | for two words with any surrounding blanks: a non-integer first word gives the generic error, otherwise an accepted period passes and any other period gives the period error |
| `Validators.CanonicalIntervalAccepted` | scheduler/models.py:25-35 | every integer followed by a blank and an accepted period is valid, e.g. "1 minutes" and "-3 days" |
| `Validators.NonIntegerFirstTokenRejected` | scheduler/models.py:36-42 | a first token that is not an integer yields the generic interval error whatever follows it |
| `Validators.EveryOneMinsRejected` | scheduler/tests.py:107-128 | "every one mins" gets the generic interval error, not the period error |
| `Timers.IntervalFromText` | scheduler/models.py:135-139 | the hook's interval parse inverts the text form: "1 minutes" gives every 1, period "minutes" |
| `Timers.ValidatedIntervalBuilds` | scheduler/models.py:133-141 | a definition the validator accepts never makes the hook's interval parse raise; the timer gets an accepted period and the first token's integer |
| `Timers.UnknownPeriodBuilds` | scheduler/models.py:133-141 | the hook does not check the period itself: "1 weeks" builds a timer although the validator rejects it |
| `Timers.Saved` | scheduler/models.py:109-142 | the hook never changes a definition; a reference that was set stays the same; the hook raises iff a referenced row to delete is missing, or the cron parse or the interval parse of an unreferenced definition fails |
| `Timers.SavedKeepsIdsBelowNext` | scheduler/models.py:119-141 | every table key and every reference the hook hands out stays below the next key of its table |
| `Timers.SavedCreatesCron` | scheduler/models.py:119-131 | a cron definition without a reference, when the interval delete does not raise, adds exactly one cron timer, under an unused key, holding the parsed fields (minute "25" for "25 * * * *"), and the schedule references it |
| `Timers.SavedCreatesInterval` | scheduler/models.py:133-141 | an interval definition without a reference, when neither cron step raises, adds exactly one interval timer under an unused key, with every = int(first token) and period = second token, and the schedule references it |
| `Timers.ResaveLeavesDanglingRef` | scheduler/models.py:111-120 | a definition whose timer is referenced and present has that timer deleted, keeps its reference, and gets no new timer, so the reference points at a missing row |
| `Timers.ResaveThenRaises` | scheduler/models.py:111-114 | after such a save succeeds, saving the schedule again raises at the cron delete and changes nothing |
| `Timers.UndefinedKindUntouched` | scheduler/models.py:111-141 | a kind whose definition is None keeps its reference, its table and its key sequence |
| `Timers.CronIndependentOfInterval` | scheduler/models.py:111-131 | when the interval delete does not raise, the cron reference and cron table after the hook depend on the cron inputs only |
| `Timers.IntervalIndependentOfCron` | scheduler/models.py:111-141 | when neither cron step raises, the interval reference and interval table after the hook depend on the interval inputs only |
| `Timers.ValidatedFirstSaveBinds` | scheduler/models.py:60-73 | a first save of definitions the field validators accept succeeds and binds each defined kind to an existing timer, the interval one with an accepted period |
| `Timers.SwappingNeverDangles` | scheduler/models.py:111-141 | with the reference cleared after each deletion, a successful save binds each defined kind to an existing timer and the replaced timer is gone |
| `Timers.Schedule.constructor` | scheduler/models.py:58-83 | a new schedule holds the given definitions and flag and references no timer |
| `Timers.TimerStore.ScheduleSaved` | scheduler/models.py:109-142 | updates the schedule's references and the two tables in place exactly as `Saved` says, including where it raises, keeps the key invariant, and leaves `enabled` alone |
| `Trigger.DueSchedules` | scheduler/management/commands/trigger_deliver_tasks.py:23 | holds exactly the enabled schedules of the store bound to the timer, each as often as the store holds it; nothing disabled and nothing bound elsewhere |
| `Trigger.GetSchedule` | scheduler/management/commands/trigger_deliver_tasks.py:13-23 | an unknown kind fails with "Invalid schedule format: <arg>, unknown type: <kind>"; a known kind fails iff its lookup id is not an integer to byte-string `int()`, and otherwise succeeds with the due schedules of that kind and id |
| `Trigger.TimerArgumentSelectsDue` | scheduler/management/commands/trigger_deliver_tasks.py:13-23 | "<kind>:<id>" written from any timer key selects exactly that timer's due schedules |
| `Trigger.BlanksBeforeLookupId` | scheduler/management/commands/trigger_deliver_tasks.py:14-18 | blanks before the id's digits are skipped: "crontab: 7" selects the same schedules as "crontab:7" |
| `Trigger.LookupIdKeepsLaterColons` | scheduler/management/commands/trigger_deliver_tasks.py:14-18 | the lookup id is everything after the first colon, so "interval:1:2" fails as a non-integer id |
| `Trigger.AddressType` | scheduler/management/commands/trigger_deliver_tasks.py:174-176 | the identity's own address type when present and non-empty, otherwise the fallback |
| `Trigger.GetAddresses` | scheduler/management/commands/trigger_deliver_tasks.py:173-178 | exactly the keys recorded under the chosen type; empty when the details, the addresses or that type are missing |
| `Trigger.OwnTypeOverridesFallback` | scheduler/management/commands/trigger_deliver_tasks.py:175-176 | an identity naming its own address type gets the same addresses whatever the fallback |
| `Trigger.ParseSbmApiUrl` | scheduler/management/commands/trigger_deliver_tasks.py:180-187 | succeeds iff the path is "/api/v1/subscriptions/", a non-empty run of [0-9a-z-], "/send", then anything; the id is that run, is unique and has no '/'; the base URL is scheme + "://" + host + "/api/v1/" |
| `Trigger.RunOfMatch` | scheduler/management/commands/trigger_deliver_tasks.py:182-184 | any id the pattern can match is exactly the maximal run of group characters after the prefix |
| `Trigger.BaseUrlIgnoresPath` | scheduler/management/commands/trigger_deliver_tasks.py:185-187 | the base URL is the same for every subscription path and trailing text |

## Left out

- The cron grammar is not modelled. `CronTab(...)` and its `matchers.*.input` come from the third-party `crontab` package. The parser is an uninterpreted function parameter whose failure stands for its ValueError.
- `Validators.ValidateCrontab` does not model exceptions other than ValueError. The source lets those escape, and the parser parameter cannot raise them.
- `PyText.ParseInt` does not accept the non-ASCII decimal digits that Python 2's `int()` accepts in a unicode string.
- `PyText.ParseInt` always treats the models' field values as unicode strings. A byte string assigned to a field from Python code would be parsed with the narrower ASCII blanks.
- ORM side effects are not modelled:
  - the cascade of `on_delete=CASCADE` (deleting a referenced timer also deletes the schedule's own row);
  - `auto_now` timestamps and UUID generation;
  - persistence order;
  - the uniqueness of one-to-one references.
- Primary keys are modelled as one counter per timer table.
- `Timers.Saved` reports a delete of a missing row as one error. It does not tell apart the two exceptions Django raises for it: a reloaded schedule fails to fetch the missing related row, and the same in-memory schedule refuses to delete an object whose key was cleared.
- `Schedule` fields other than the two definitions, the two references and `enabled` are not modelled. These are frequency, endpoint, payload, next_send_at, timestamps and the user references.
- `Trigger.DueSchedules` returns schedules in the store's order. The database query promises no order.
- `Trigger.GetAddresses` does not model JSON values of the wrong type. A `details` or `addresses` key holding null, or a non-string address type, makes the source raise or behave differently. Address metadata is generic and never read. The key list is a set because its order is not defined.
- `Command.handle` is not modelled because it calls network services. This covers the identity store, stage-based messaging and message sender clients, and `MessageSenderApiClient`.
- The argparse wiring, `mk_validator`/URLValidator and `get_model` are not modelled. They are command-line glue and ORM lookups.
- `urlparse` is not modelled. Scheme, host and path are inputs.
- `Schedule.serialize_hook` and `__str__` are not modelled. They shape dictionaries and format datetimes.
- The other management commands, the views, serializers, URL configuration and the migration are not modelled. They are interactive, asynchronous or framework configuration.
- The run counter, auto-disable, HTTP delivery and retries are not modelled. No code for them exists in the modelled files.

## Findings

| source | as written | input that shows it | evidently intended | confidence | as-written member | corrected member |
|---|---|---|---|---|---|---|
| scheduler/models.py:111-120 | the hook deletes the timer a schedule references but leaves the reference set, so the create branch is skipped and the schedule points at a deleted row; the next save then raises on the missing row | a second save of a schedule with cron definition "25 * * * *" whose cron reference is already set (likewise for an interval definition) | delete the old timer and bind a new one built from the current definition | not executed; high at the level modelled (the ORM cascade is not modelled) | `Timers.ResaveLeavesDanglingRef` | `Timers.SwappingNeverDangles` |

The corrected hook is the value-level `Timers.SavedSwapping`. `TimerStore.ScheduleSaved` keeps the behaviour as written, because the rest of the model describes the code as it is.
