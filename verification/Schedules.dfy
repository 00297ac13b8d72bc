/** When a job is due. Times are nanoseconds since the zero time, the start of year 1. */
module Schedules {
  import opened Strings

  const SECOND: int := 1_000_000_000
  const MAX_DURATION: int := 0x7fff_ffff_ffff_ffff
  const MIN_DURATION: int := -0x8000_0000_0000_0000

  type Duration = d: int | MIN_DURATION <= d <= MAX_DURATION

  /** What a clock shows. The zero second is left out: as a stamp it means "never". */
  type Instant = t: int | t >= SECOND witness SECOND

  /** Parsing of durations and of RFC 3339 times, and formatting of RFC 3339 times. */
  datatype Clock = Clock(
    parseDuration: string -> Option<Duration>,
    parseTime: string -> Option<int>,
    format: int -> string
  )

  datatype Job = Job(id: string, schedule: string, message: string, enabled: bool, lastRun: string)

  datatype Kind = Every(period: Duration) | Once(at: int) | Bad

  datatype Due = Invalid | Due(due: bool, disable: bool)

  function FloorSecond(t: int): (r: int)
    ensures t - SECOND < r <= t
  {
    t - t % SECOND
  }

  // The formatted year has four digits from year 0 to year 9999.
  const FIRST_FORMATTED: int := -31_622_400 * SECOND
  const END_FORMATTED: int := 315_537_897_600 * SECOND

  /** RFC 3339 stamps hold whole seconds, and only years of four digits are read back. */
  ghost predicate StampsWholeSeconds(clock: Clock) {
    forall t :: StampOf(clock, t)
  }

  ghost predicate StampOf(clock: Clock, t: int) {
    && clock.format(t) != ""
    && clock.parseTime(clock.format(t)) == if FIRST_FORMATTED <= t < END_FORMATTED then Some(FloorSecond(t)) else None
  }

  function NormalizeSchedule(raw: string): string {
    var trimmed := Trim(raw);
    var lower := Lower(trimmed);
    if lower in {"@hourly", "hourly", "0 * * * *"} then "@every 1h"
    else if lower in {"@daily", "daily", "0 0 * * *"} then "@every 24h"
    else trimmed
  }

  function KindOf(clock: Clock, schedule: string): Kind {
    var s := NormalizeSchedule(schedule);
    if "@every " <= s then
      var d := clock.parseDuration(Trim(s[7..]));
      if d.None? || d.value <= 0 then Bad else Every(d.value)
    else
      var at := clock.parseTime(s);
      if at.None? then Bad else Once(at.value)
  }

  function ParseLastRun(clock: Clock, raw: string): Option<int> {
    if raw == "" then Some(0) else clock.parseTime(raw)
  }

  /** The difference of two times, which saturates. */
  function Sub(a: int, b: int): Duration {
    if a - b > MAX_DURATION then MAX_DURATION else if a - b < MIN_DURATION then MIN_DURATION else a - b
  }

  function NextDue(clock: Clock, job: Job, now: int): Due {
    var last := ParseLastRun(clock, job.lastRun);
    match KindOf(clock, job.schedule)
    case Bad => Invalid
    case Every(d) =>
      if last.None? then Invalid
      else if last.value == 0 then Due(true, false)
      else Due(Sub(now, last.value) >= d, false)
    case Once(at) =>
      if last.None? then Invalid
      else if last.value != 0 then Due(false, true)
      else if now < at then Due(false, false)
      else Due(true, true)
  }

  predicate IsMissedRun(clock: Clock, job: Job, now: int) {
    var last := ParseLastRun(clock, job.lastRun);
    match KindOf(clock, job.schedule)
    case Bad => false
    case Every(d) => last.Some? && last.value != 0 && Sub(now, last.value) >= d
    case Once(at) => last == Some(0) && now > at
  }

  predicate IsDue(clock: Clock, job: Job, now: int) {
    job.enabled && NextDue(clock, job, now).Due? && NextDue(clock, job, now).due
  }

  predicate Disables(clock: Clock, job: Job, now: int) {
    NextDue(clock, job, now).Due? && NextDue(clock, job, now).disable
  }

  function Stamped(clock: Clock, job: Job, now: int, disable: bool): Job {
    job.(lastRun := clock.format(now), enabled := job.enabled && !disable)
  }

  /** A text without white space at its ends. */
  predicate IsTrimmed(s: string) {
    s != [] && !IsSpace(s[0]) && !IsSpace(s[|s| - 1])
  }

  const EVERY := "@every "

  /** A schedule that starts with `@e` is none of the short forms. */
  lemma EveryIsNormal(before: string, core: string, after: string)
    requires AllSpace(before) && AllSpace(after) && IsTrimmed(core) && |core| >= 2 && core[0] == '@' && core[1] == 'e'
    ensures NormalizeSchedule(before + core + after) == core
  {
    hide Trim;
    TrimBetween(before, core, after);
    assert Lower(core)[0] == '@' && Lower(core)[1] == 'e';
  }

  /** A schedule of `@every ` and a positive duration is read as that period, with or without white space between
      and around. */
  lemma EverySchedule(clock: Clock, before: string, between: string, raw: string, after: string)
    requires AllSpace(before) && AllSpace(between) && AllSpace(after) && IsTrimmed(raw)
    ensures KindOf(clock, before + EVERY + between + raw + after)
            == match clock.parseDuration(raw)
               case None => Bad
               case Some(d) => if d > 0 then Every(d) else Bad
  {
    hide Trim, NormalizeSchedule;
    var core := EVERY + between + raw;
    assert core[|core| - 1] == raw[|raw| - 1] && core[0] == '@' && core[1] == 'e';
    assert before + EVERY + between + raw + after == before + core + after;
    EveryIsNormal(before, core, after);
    assert core[7..] == between + raw + [];
    TrimBetween(between, raw, []);
  }

  const HOURLY := ["@hourly", "hourly", "0 * * * *"]
  const DAILY := ["@daily", "daily", "0 0 * * *"]

  /** The short forms, in any letter case. */
  lemma ShortSchedule(clock: Clock, before: string, short: string, after: string)
    requires AllSpace(before) && AllSpace(after) && IsTrimmed(short)
    ensures Lower(short) in HOURLY ==> KindOf(clock, before + short + after) == KindOf(clock, "@every 1h")
    ensures Lower(short) in DAILY ==> KindOf(clock, before + short + after) == KindOf(clock, "@every 24h")
  {
    ShortIsNormal(before, short, after);
    hide NormalizeSchedule, Lower, Trim;
    assert "@every 1h"[0] == "@every 24h"[0] == '@' && "@every 1h"[1] == "@every 24h"[1] == 'e';
    assert [] + "@every 1h" + [] == "@every 1h" && [] + "@every 24h" + [] == "@every 24h";
    EveryIsNormal([], "@every 1h", []);
    EveryIsNormal([], "@every 24h", []);
  }

  lemma ShortIsNormal(before: string, short: string, after: string)
    requires AllSpace(before) && AllSpace(after) && IsTrimmed(short)
    ensures Lower(short) in HOURLY ==> NormalizeSchedule(before + short + after) == "@every 1h"
    ensures Lower(short) in DAILY ==> NormalizeSchedule(before + short + after) == "@every 24h"
  {
    TrimBetween(before, short, after);
    hide Lower, Trim;
    assert |HOURLY[0]| == 7 && |HOURLY[1]| == 6 && |HOURLY[2]| == 9 && HOURLY[2][2] == '*';
    assert |DAILY[0]| == 6 && |DAILY[1]| == 5 && |DAILY[2]| == 9 && DAILY[2][2] == '0' && HOURLY[1][0] != DAILY[0][0];
  }

  /** Any other schedule is a time. */
  lemma OnceSchedule(clock: Clock, before: string, raw: string, after: string)
    requires AllSpace(before) && AllSpace(after) && IsTrimmed(raw)
    requires !(EVERY <= raw) && Lower(raw) !in HOURLY && Lower(raw) !in DAILY
    ensures KindOf(clock, before + raw + after)
            == match clock.parseTime(raw) case None => Bad case Some(at) => Once(at)
  {
    TrimBetween(before, raw, after);
    assert Lower(raw) in HOURLY <==> Lower(raw) in {"@hourly", "hourly", "0 * * * *"};
    assert Lower(raw) in DAILY <==> Lower(raw) in {"@daily", "daily", "0 0 * * *"};
  }

  /** An enabled job that never ran is due: an `@every` job at every time, a one-shot job exactly from its time on,
      and its run disables it. */
  lemma NewJobDue(clock: Clock, job: Job, now: int)
    requires job.enabled && job.lastRun == ""
    ensures match KindOf(clock, job.schedule)
            case Bad => !IsDue(clock, job, now)
            case Every(_) => IsDue(clock, job, now) && !Disables(clock, job, now)
            case Once(at) => (IsDue(clock, job, now) <==> now >= at) && (Disables(clock, job, now) <==> now >= at)
  {
  }

  /** A due run counts as missed exactly if an `@every` job ran before, or the time of a one-shot job has passed. */
  lemma MissedExactly(clock: Clock, job: Job, now: int)
    requires IsDue(clock, job, now)
    ensures IsMissedRun(clock, job, now) <==>
              match KindOf(clock, job.schedule)
              case Every(_) => ParseLastRun(clock, job.lastRun) != Some(0)
              case Once(at) => now > at
              case Bad => false
  {
  }

  /** After a run at `ran`, an `@every d` job is due from the whole second of that run plus d on, and no
      earlier; when the stamp cannot be read back the job is never due again. */
  lemma EveryDueAgain(clock: Clock, job: Job, ran: int, now: int)
    requires StampsWholeSeconds(clock) && KindOf(clock, job.schedule).Every?
    requires FloorSecond(ran) != 0
    ensures var d := KindOf(clock, job.schedule).period;
            var again := NextDue(clock, Stamped(clock, job, ran, false), now);
            if FIRST_FORMATTED <= ran < END_FORMATTED then again == Due(now >= FloorSecond(ran) + d, false)
            else again == Invalid
  {
    assert StampOf(clock, ran);
  }

  /** Consecutive runs can be closer than d: whenever `ran` is not on a whole second, an earlier time than
      ran + d is due, by as much as the fraction of the second. */
  lemma EveryDueEarly(clock: Clock, job: Job, ran: Instant)
    requires StampsWholeSeconds(clock) && KindOf(clock, job.schedule).Every? && ran < END_FORMATTED
    ensures var d := KindOf(clock, job.schedule).period;
            var now := ran + d - ran % SECOND;
            && NextDue(clock, Stamped(clock, job, ran, false), now) == Due(true, false)
            && (now < ran + d <==> ran % SECOND != 0)
  {
    EveryDueAgain(clock, job, ran, FloorSecond(ran) + KindOf(clock, job.schedule).period);
  }

  /** A one-shot job that ran is settled, even if it is enabled again, exactly if it did not run in the zero
      second, whose stamp reads as "never". */
  lemma OnceSettledIff(clock: Clock, job: Job, ran: int)
    requires StampsWholeSeconds(clock) && KindOf(clock, job.schedule).Once?
    ensures (forall now :: !IsDue(clock, Stamped(clock, job, ran, true).(enabled := true), now))
            <==> FloorSecond(ran) != 0
  {
    assert StampOf(clock, ran);
    var again := Stamped(clock, job, ran, true).(enabled := true);
    if FloorSecond(ran) == 0 {
      assert IsDue(clock, again, KindOf(clock, job.schedule).at);
    }
  }

  /** What the history of a job's runs looks like: `@every d` runs are more than d minus a second apart, a
      one-shot job ran at most once and not early, and the stamp in the job covers the last run. */
  ghost predicate GoodHistory(clock: Clock, job: Job, runs: seq<Instant>) {
    && (runs != [] ==> Covers(ParseLastRun(clock, job.lastRun), runs[|runs| - 1]))
    && match KindOf(clock, job.schedule)
       case Bad => runs == []
       case Every(d) => forall k :: 0 <= k < |runs| - 1 ==> Apart(runs[k], runs[k + 1], d)
       case Once(at) => |runs| <= 1 && (runs != [] ==> runs[0] >= at)
  }

  predicate Apart(earlier: int, later: int, d: int) {
    later - earlier > d - SECOND
  }

  predicate Covers(last: Option<int>, ran: int) {
    last.Some? ==> last.value != 0 && last.value >= FloorSecond(ran)
  }

  lemma StampCovers(clock: Clock, job: Job, now: Instant, ran: int, disable: bool)
    requires StampsWholeSeconds(clock) && ran <= now
    ensures Covers(ParseLastRun(clock, Stamped(clock, job, now, disable).lastRun), ran)
  {
    assert StampOf(clock, now);
  }

  /** Running a due job keeps the history good. */
  lemma RunKeepsHistory(clock: Clock, job: Job, runs: seq<Instant>, now: Instant, disable: bool)
    requires StampsWholeSeconds(clock) && GoodHistory(clock, job, runs) && IsDue(clock, job, now)
    ensures GoodHistory(clock, Stamped(clock, job, now, disable), runs + [now])
  {
    StampCovers(clock, job, now, now, disable);
  }

  /** So does skipping a missed run. */
  lemma SkipKeepsHistory(clock: Clock, job: Job, runs: seq<Instant>, now: Instant, disable: bool)
    requires StampsWholeSeconds(clock) && GoodHistory(clock, job, runs) && IsDue(clock, job, now)
    ensures GoodHistory(clock, Stamped(clock, job, now, disable), runs)
  {
    if runs != [] {
      var ran := runs[|runs| - 1];
      var last := ParseLastRun(clock, job.lastRun).value;
      assert StampOf(clock, now);
      assert last >= FloorSecond(ran) && now > last;
      assert FloorSecond(now) >= FloorSecond(ran);
    }
  }

  /** What a check makes of a job: a due job is stamped, and disabled if it is a one-shot. */
  function AfterCheck(clock: Clock, job: Job, now: Instant): Job {
    if IsDue(clock, job, now) then Stamped(clock, job, now, Disables(clock, job, now)) else job
  }

  /** Whether a check runs the job. `skipMissed`: this is the first check and missed runs are not caught up. */
  predicate Runs(clock: Clock, job: Job, now: Instant, skipMissed: bool) {
    IsDue(clock, job, now) && !(skipMissed && IsMissedRun(clock, job, now))
  }

  /** What a check has to do with a job, told by the schedule and the last run alone: a disabled job is left alone;
      a job that never ran is run once its time has come, an `@every` job at once; an `@every d` job that ran is run
      again from the whole second of that run plus d on. Only missed runs on a first check without catch-up are
      dropped; a one-shot job that is run or dropped is disabled. */
  ghost predicate Served(clock: Clock, job: Job, runs: seq<Instant>, later: Job, laterRuns: seq<Instant>, now: Instant,
                         skipMissed: bool) {
    && (!job.enabled ==> later == job && laterRuns == runs)
    && (job.enabled && job.lastRun == "" ==>
          match KindOf(clock, job.schedule)
          case Bad => later == job && laterRuns == runs
          case Every(_) => later == job.(lastRun := clock.format(now)) && laterRuns == runs + [now]
          case Once(at) =>
            && later == (if now < at then job else job.(lastRun := clock.format(now), enabled := false))
            && laterRuns == if now == at || (now > at && !skipMissed) then runs + [now] else runs)
    && (forall ran: Instant :: job.enabled && job.lastRun == clock.format(ran) && ran < END_FORMATTED ==>
          match KindOf(clock, job.schedule)
          case Bad => later == job && laterRuns == runs
          case Every(d) =>
            && later == (if now >= FloorSecond(ran) + d then job.(lastRun := clock.format(now)) else job)
            && laterRuns == if now >= FloorSecond(ran) + d && !skipMissed then runs + [now] else runs
          case Once(_) => later == job && laterRuns == runs)
  }

  lemma CheckServes(clock: Clock, job: Job, runs: seq<Instant>, now: Instant, skipMissed: bool)
    requires StampsWholeSeconds(clock)
    ensures Served(clock, job, runs, AfterCheck(clock, job, now),
                   if Runs(clock, job, now, skipMissed) then runs + [now] else runs, now, skipMissed)
  {
    forall ran: Instant | job.lastRun == clock.format(ran)
      ensures StampOf(clock, ran)
    {
    }
  }

  lemma CheckKeepsHistory(clock: Clock, job: Job, runs: seq<Instant>, now: Instant, skipMissed: bool)
    requires StampsWholeSeconds(clock) && GoodHistory(clock, job, runs)
    ensures GoodHistory(clock, AfterCheck(clock, job, now),
                        if Runs(clock, job, now, skipMissed) then runs + [now] else runs)
  {
    hide GoodHistory, StampsWholeSeconds;
    if IsDue(clock, job, now) {
      if Runs(clock, job, now, skipMissed) {
        RunKeepsHistory(clock, job, runs, now, Disables(clock, job, now));
      } else {
        SkipKeepsHistory(clock, job, runs, now, Disables(clock, job, now));
      }
    }
  }
}
