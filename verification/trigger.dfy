/**
 * The parts of the `trigger_deliver_tasks` management command that do not talk to the
 * network: selecting the due schedules of a fired timer, choosing an identity's
 * addresses, and splitting a subscription endpoint into its API base URL and
 * subscription id.
 */
module Trigger {
  import opened Wrappers
  import opened PyText
  import opened Timers

  /** The two kinds of timer a schedule can be bound to. */
  datatype TimerKind = Crontab | Interval {
    /** The name the command line uses for the kind. */
    function Name(): string {
      match this
      case Crontab => "crontab"
      case Interval => "interval"
    }
  }

  /** The errors `get_schedule` raises. */
  datatype ScheduleArgError =
    | UnknownType(message: string)   // a CommandError naming the argument and its kind
    | InvalidLookupId(text: string)  // the ValueError of `int()` on the lookup id

  /** The timer of the given kind a schedule references. */
  function RefOf(s: Schedule, kind: TimerKind): Option<TimerId>
    reads s
  {
    match kind
    case Crontab => s.cronRef
    case Interval => s.intervalRef
  }

  /** Whether a schedule is due when the timer `id` of kind `kind` fires. */
  predicate IsDue(s: Schedule, kind: TimerKind, id: TimerId)
    reads s
  {
    s.enabled && RefOf(s, kind) == Some(id)
  }

  /**
   * The store filtered to the enabled schedules bound to the timer: each due schedule
   * as often as the store holds it, nothing else.
   */
  function DueSchedules(store: seq<Schedule>, kind: TimerKind, id: TimerId): (r: seq<Schedule>)
    reads store
    ensures forall s :: s in r ==> s in store && IsDue(s, kind, id)
    ensures forall s :: s in store && IsDue(s, kind, id) ==> s in r
    ensures forall s :: s in store ==> multiset(r)[s] == if IsDue(s, kind, id) then multiset(store)[s] else 0
  {
    if store == [] then []
    else
      var rest := DueSchedules(store[1..], kind, id);
      assert store == [store[0]] + store[1..];
      if IsDue(store[0], kind, id) then [store[0]] + rest else rest
  }

  /**
   * `get_schedule`: "<kind>:<id>", split at the first colon, selects the due schedules of
   * that timer. An unknown kind is refused before the id is read.
   */
  function GetSchedule(arg: string, store: seq<Schedule>): (r: Result<seq<Schedule>, ScheduleArgError>)
    reads store
    ensures var (kind, _, lookupId) := Partition(arg, ':');
      && (kind != "crontab" && kind != "interval" ==>
            r == Failure(UnknownType("Invalid schedule format: " + arg + ", unknown type: " + kind)))
      && ((kind == "crontab" || kind == "interval") && ParseInt(Bytes, lookupId).None? ==>
            r == Failure(InvalidLookupId(lookupId)))
      && ((kind == "crontab" || kind == "interval") && ParseInt(Bytes, lookupId).Some? ==> r.Success?)
      && (r.Success? ==>
            && ParseInt(Bytes, lookupId).Some?
            && var k := if kind == "crontab" then Crontab else Interval;
               r.value == DueSchedules(store, k, ParseInt(Bytes, lookupId).value))
  {
    var (kind, _, lookupId) := Partition(arg, ':');
    if kind == "crontab" then
      match ParseInt(Bytes, lookupId)
      case None => Failure(InvalidLookupId(lookupId))
      case Some(id) => Success(DueSchedules(store, Crontab, id))
    else if kind == "interval" then
      match ParseInt(Bytes, lookupId)
      case None => Failure(InvalidLookupId(lookupId))
      case Some(id) => Success(DueSchedules(store, Interval, id))
    else
      Failure(UnknownType("Invalid schedule format: " + arg + ", unknown type: " + kind))
  }

  /**
   * The argument naming a timer, "crontab:<id>" or "interval:<id>", selects exactly the
   * due schedules of that timer.
   */
  lemma {:induction false} TimerArgumentSelectsDue(kind: TimerKind, id: TimerId, store: seq<Schedule>)
    ensures GetSchedule(kind.Name() + ":" + FormatInt(id), store) == Success(DueSchedules(store, kind, id))
  {
    ParseFormatRoundTrip(Bytes, id);
    PartitionAfterHead(kind.Name(), ':', FormatInt(id));
    assert kind.Name() + ":" + FormatInt(id) == kind.Name() + [':'] + FormatInt(id);
  }

  /**
   * `int()` skips blanks before the id, so "crontab: 7" selects the same schedules as
   * "crontab:7".
   */
  lemma {:induction false} BlanksBeforeLookupId(kind: TimerKind, ws: string, n: nat, store: seq<Schedule>)
    requires AllBlank(Bytes, ws)
    ensures GetSchedule(kind.Name() + ":" + ws + FormatNat(n), store) == Success(DueSchedules(store, kind, n))
  {
    var digits := FormatNat(n);
    FormatNatValue(n);
    assert IsDigit(digits[0]);
    DropBlanksOfPrefix(Bytes, ws, digits);
    DigitsKeepTrailing(Bytes, digits);
    assert ParseInt(Bytes, ws + digits) == Some(n);
    PartitionAfterHead(kind.Name(), ':', ws + digits);
    assert kind.Name() + ":" + ws + digits == kind.Name() + [':'] + (ws + digits);
  }

  /** The lookup id is everything after the first colon, colons included: "interval:1:2" does not parse. */
  lemma {:induction false} LookupIdKeepsLaterColons(store: seq<Schedule>)
    ensures GetSchedule("interval:1:2", store) == Failure(InvalidLookupId("1:2"))
  {
    var head, tail := "interval", "1:2";
    assert head + [':'] + tail == "interval:1:2";
    PartitionAfterHead(head, ':', tail);
    NotAnIntegerWithColon();
  }

  lemma NotAnIntegerWithColon()
    ensures ParseInt(Bytes, "1:2").None?
  {
    assert DropBlanks(Bytes, "1:2") == "1:2";
    assert DropTrailingBlanks(Bytes, "1:2") == "1:2";
    assert !IsDigits("1:2") by {
      assert !IsDigit("1:2"[1]);
    }
  }

  /** The `details` of an identity record; `None` stands for a missing key. */
  datatype Details<M> = Details(defaultAddrType: Option<string>, addresses: Option<map<string, map<string, M>>>)

  /** An identity record; addresses map to metadata of any type `M`, which is not read. */
  datatype Identity<M> = Identity(details: Option<Details<M>>)

  /** The address type to use: the identity's own when present and non-empty, otherwise the fallback. */
  function AddressType<M>(identity: Identity<M>, fallback: string): (t: string)
    ensures identity.details.Some? && identity.details.value.defaultAddrType.Some?
            && identity.details.value.defaultAddrType.value != "" ==>
              t == identity.details.value.defaultAddrType.value
    ensures (|| identity.details.None? || identity.details.value.defaultAddrType.None?
             || identity.details.value.defaultAddrType.value == "") ==> t == fallback
  {
    match identity.details
    case None => fallback
    case Some(details) =>
      match details.defaultAddrType
      case Some(own) => if own != "" then own else fallback
      case None => fallback
  }

  /** `get_addresses`: the addresses recorded for the chosen type, or none when any level is missing. */
  function GetAddresses<M>(identity: Identity<M>, fallback: string): (r: set<string>)
    ensures forall a :: a in r <==>
      && identity.details.Some?
      && identity.details.value.addresses.Some?
      && AddressType(identity, fallback) in identity.details.value.addresses.value
      && a in identity.details.value.addresses.value[AddressType(identity, fallback)]
  {
    var addrType := AddressType(identity, fallback);
    match identity.details
    case None => {}
    case Some(details) =>
      match details.addresses
      case None => {}
      case Some(byType) => if addrType in byType then byType[addrType].Keys else {}
  }

  /** An identity that names its own address type makes the fallback irrelevant. */
  lemma {:induction false} OwnTypeOverridesFallback<M>(identity: Identity<M>, fallback1: string, fallback2: string)
    requires identity.details.Some? && identity.details.value.defaultAddrType.Some?
    requires identity.details.value.defaultAddrType.value != ""
    ensures GetAddresses(identity, fallback1) == GetAddresses(identity, fallback2)
  {
    var own := identity.details.value.defaultAddrType.value;
    assert AddressType(identity, fallback1) == own == AddressType(identity, fallback2);
  }

  /** The parts of a parsed URL the command reads. */
  datatype UrlParts = UrlParts(scheme: string, netloc: string, path: string)

  /** The path prefix of a subscription's send endpoint. */
  const SubscriptionsPrefix: string := "/api/v1/subscriptions/"

  /** The characters of the pattern's group `[0-9a-z\-]`. */
  predicate IsIdChar(c: char) {
    ('0' <= c <= '9') || ('a' <= c <= 'z') || c == '-'
  }

  /**
   * What the anchored pattern `/api/v1/subscriptions/([0-9a-z\-]+)/send` accepts with
   * `id` as its group: the prefix, then `id`, then "/send", then anything.
   */
  ghost predicate PathMatches(path: string, id: string) {
    && |id| > 0
    && (forall i :: 0 <= i < |id| ==> IsIdChar(id[i]))
    && SubscriptionsPrefix + id + "/send" <= path
  }

  /** The length of the leading run of `[0-9a-z\-]` in `s`. */
  function IdRunLength(s: string): (n: nat)
    ensures n <= |s|
    ensures forall i :: 0 <= i < n ==> IsIdChar(s[i])
    ensures n < |s| ==> !IsIdChar(s[n])
  {
    if s == [] || !IsIdChar(s[0]) then 0 else 1 + IdRunLength(s[1..])
  }

  /** An id run stops at the first character outside the group. */
  lemma {:induction false} IdRunLengthOfPrefix(id: string, rest: string)
    requires forall i :: 0 <= i < |id| ==> IsIdChar(id[i])
    requires rest != [] && !IsIdChar(rest[0])
    ensures IdRunLength(id + rest) == |id|
    decreases |id|
  {
    if id == [] {
      assert id + rest == rest;
    } else {
      assert (id + rest)[1..] == id[1..] + rest;
      IdRunLengthOfPrefix(id[1..], rest);
    }
  }

  /** The matching `re.match` fails with; `.groups()` on its `None` raises. */
  datatype UrlError = NoMatch(path: string)

  /**
   * `parse_sbm_api_url`: the stage-based messaging API base URL and the subscription id
   * of a send endpoint. The greedy group cannot run past a '/', so the id is the whole
   * run of group characters after the prefix, and it must be followed by "/send".
   */
  function ParseSbmApiUrl(url: UrlParts): (r: Result<(string, string), UrlError>)
    ensures r.Success? ==>
      && r.value.0 == url.scheme + "://" + url.netloc + "/api/v1/"
      && PathMatches(url.path, r.value.1)
      && '/' !in r.value.1
    ensures forall id :: PathMatches(url.path, id) ==>
      r == Success((url.scheme + "://" + url.netloc + "/api/v1/", id))
    ensures r.Failure? <==> forall id :: !PathMatches(url.path, id)
  {
    var path := url.path;
    if !(SubscriptionsPrefix <= path) then Failure(NoMatch(path))
    else
      var rest := path[|SubscriptionsPrefix|..];
      var n := IdRunLength(rest);
      if n == 0 || !("/send" <= rest[n..]) then
        assert forall id :: !PathMatches(path, id) by {
          forall id | PathMatches(path, id) ensures false {
            RunOfMatch(path, id);
          }
        }
        Failure(NoMatch(path))
      else
        var id := rest[..n];
        assert PathMatches(path, id) by {
          assert rest == id + rest[n..];
          assert path == SubscriptionsPrefix + rest;
          assert SubscriptionsPrefix + id + "/send" <= path by {
            assert SubscriptionsPrefix + id + "/send" == SubscriptionsPrefix + rest[..n + 5];
          }
        }
        assert forall other :: PathMatches(path, other) ==> other == id by {
          forall other | PathMatches(path, other) ensures other == id {
            RunOfMatch(path, other);
          }
        }
        assert '/' !in id by {
          assert forall i :: 0 <= i < |id| ==> IsIdChar(id[i]);
        }
        Success((url.scheme + "://" + url.netloc + "/api/v1/", id))
  }

  /** Whatever group the pattern matches is exactly the run of group characters after the prefix. */
  lemma {:induction false} RunOfMatch(path: string, id: string)
    requires PathMatches(path, id)
    ensures SubscriptionsPrefix <= path
    ensures var rest := path[|SubscriptionsPrefix|..];
      && IdRunLength(rest) == |id| && id == rest[..|id|] && "/send" <= rest[|id|..]
  {
    var whole := SubscriptionsPrefix + id + "/send";
    assert whole[..|SubscriptionsPrefix|] == SubscriptionsPrefix;
    var rest := path[|SubscriptionsPrefix|..];
    var tail := rest[|id|..];
    assert rest == id + tail;
    assert "/send" <= tail;
    IdRunLengthOfPrefix(id, tail);
  }

  /** The base URL depends on the scheme and host only, whatever the subscription. */
  lemma {:induction false} BaseUrlIgnoresPath(scheme: string, netloc: string, id1: string, id2: string, more: string)
    requires |id1| > 0 && forall i :: 0 <= i < |id1| ==> IsIdChar(id1[i])
    requires |id2| > 0 && forall i :: 0 <= i < |id2| ==> IsIdChar(id2[i])
    ensures var r1 := ParseSbmApiUrl(UrlParts(scheme, netloc, SubscriptionsPrefix + id1 + "/send"));
      var r2 := ParseSbmApiUrl(UrlParts(scheme, netloc, SubscriptionsPrefix + id2 + "/send" + more));
      && r1 == Success((scheme + "://" + netloc + "/api/v1/", id1))
      && r2 == Success((scheme + "://" + netloc + "/api/v1/", id2))
  {
    var p1 := SubscriptionsPrefix + id1 + "/send";
    var p2 := SubscriptionsPrefix + id2 + "/send" + more;
    assert PathMatches(p1, id1);
    assert PathMatches(p2, id2) by {
      assert p2[..|SubscriptionsPrefix + id2 + "/send"|] == SubscriptionsPrefix + id2 + "/send";
    }
  }
}
