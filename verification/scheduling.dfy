/** `ExecutionTracking`: the last and next execution times both scheduled
    task services keep for their fixed-rate API call. Clock readings come
    from a `Clock`; the formatted timestamps the services only log are
    readings whose values are not kept. */
module ExecutionTracking {
  import opened Wrappers
  import opened JavaLang
  import opened JobExecution

  /** `SCHEDULE_INTERVAL_MS`, the fixed rate of the API call. */
  const ScheduleIntervalMs: int := 120000

  /** `plusMinutes(2)`, in the nanoseconds of `Time`. */
  const TwoMinutes: int := 2 * 60 * 1_000_000_000

  /** `lastExecutionTime` (null until the first call) and `nextExecutionTime`. */
  datatype Tracker = Tracker(last: Option<Time>, next: Time)

  /** The announced next execution is two minutes after the last one, once
      there has been one. */
  predicate Consistent(t: Tracker) {
    t.last.Some? ==> t.next == t.last.value + TwoMinutes
  }

  /** The next time the services announce is one schedule interval after the
      last: `plusMinutes(2)` and the 120000 ms fixed rate agree. */
  lemma AnnouncedIsInterval()
    ensures TwoMinutes == ScheduleIntervalMs * NanosPerMilli
  {
  }

  /** The constructor: no last execution, the next one two minutes after
      the `k`-th reading. */
  function Init(clock: Clock, k: nat): (t: Tracker)
    ensures t.last.None? && t.next - clock(k) == ScheduleIntervalMs * NanosPerMilli
    ensures Consistent(t)
  {
    Tracker(None, clock(k) + TwoMinutes)
  }

  /** The tracking part of `scheduledApiCall()`, starting at reading `k`:
      reading `k` is formatted for the log, reading `k + 1` becomes the last
      execution, and the next one is announced two minutes later. Whatever
      was tracked before is forgotten. */
  function Track(t: Tracker, clock: Clock, k: nat): (r: Tracker)
    ensures r.last == Some(clock(k + 1))
    ensures r.next - r.last.value == ScheduleIntervalMs * NanosPerMilli
    ensures Consistent(r)
  {
    Tracker(Some(clock(k + 1)), clock(k + 1) + TwoMinutes)
  }

  /** What a scheduled method calls on its collaborators. */
  datatype Effect = CallExternalApi | SyncSitesCall

  /** A scheduled method's run: the tracker after it, the calls it made, the
      clock readings it took and the exception that escaped, if any. */
  datatype Outcome = Outcome(tracker: Tracker, effects: seq<Effect>, readings: nat, thrown: Option<Throwable>)

  /** `scheduledApiCall()` starting at reading `k`, as both services write
      it. `callFails` is what `apiCallService.callExternalApi()` throws, if
      anything (ApiCallService is not part of this model). The tracker is
      updated before the call, so a failing call still leaves the new times;
      its exception escapes. */
  function ApiCall(t: Tracker, clock: Clock, k: nat, callFails: Option<Throwable>): (o: Outcome)
    ensures o.effects == [CallExternalApi] && o.readings == ReadingsPerCall
    ensures o.tracker.last == Some(clock(k + 1)) && Consistent(o.tracker)
    ensures o.tracker.next - clock(k + 1) == ScheduleIntervalMs * NanosPerMilli
    ensures o.thrown == callFails
  {
    Outcome(Track(t, clock, k), [CallExternalApi], ReadingsPerCall, callFails)
  }

  /** Each call takes two readings. */
  const ReadingsPerCall: nat := 2

  /** `n` calls, the first starting at reading `k`. */
  function TrackRuns(t: Tracker, clock: Clock, k: nat, n: nat): Tracker
    decreases n
  {
    if n == 0 then t else TrackRuns(Track(t, clock, k), clock, k + ReadingsPerCall, n - 1)
  }

  /** After `n > 0` calls the last execution is the second reading of the
      last call, and the tracker is consistent whatever it was before. */
  lemma {:induction false} TrackRunsLast(t: Tracker, clock: Clock, k: nat, n: nat)
    requires n > 0
    ensures TrackRuns(t, clock, k, n).last == Some(clock(k + 2 * n - 1))
    ensures Consistent(TrackRuns(t, clock, k, n))
    decreases n
  {
    if n > 1 {
      TrackRunsLast(Track(t, clock, k), clock, k + ReadingsPerCall, n - 1);
    }
  }

  /** Consistency holds from construction on, through any number of calls. */
  lemma {:induction false} TrackRunsConsistent(clock: Clock, k: nat, n: nat)
    ensures Consistent(TrackRuns(Init(clock, k), clock, k + 1, n))
  {
    if n > 0 {
      TrackRunsLast(Init(clock, k), clock, k + 1, n);
    }
  }

  /** On a clock that never goes back, a further call never moves the last
      execution, nor the announced next one, backwards. */
  lemma {:induction false} TrackRunsAdvance(t: Tracker, clock: Clock, k: nat, n: nat)
    requires Monotone(clock) && n > 0
    ensures var a := TrackRuns(t, clock, k, n);
            var b := TrackRuns(t, clock, k, n + 1);
            a.last.Some? && b.last.Some? && a.last.value <= b.last.value && a.next <= b.next
  {
    TrackRunsLast(t, clock, k, n);
    TrackRunsLast(t, clock, k, n + 1);
    assert clock(k + 2 * n - 1) <= clock(k + 2 * (n + 1) - 1);
  }
}

/** `com.amfk.starfish.sync.service.ScheduledTaskService`: the fixed-rate
    API call with execution tracking, and the cron-driven site sync, which
    runs only when enabled and never lets the sync's failure escape. */
module ScheduledTaskService {
  import opened Wrappers
  import opened JavaLang
  import opened ExecutionTracking

  /** `site.sync.enabled` and `site.sync.cron`. */
  datatype Config = Config(siteSyncEnabled: bool, siteSyncCron: string)

  const DefaultCron := "0 0 */2 * * ?"

  /** The property defaults: enabled, every two hours. */
  function DefaultConfig(): (c: Config)
    ensures c.siteSyncEnabled && c.siteSyncCron == DefaultCron
  {
    Config(true, DefaultCron)
  }

  /** `scheduledApiCall()`: the shared tracking and call. */
  function ScheduledApiCall(t: Tracker, clock: Clock, k: nat, callFails: Option<Throwable>): Outcome {
    ApiCall(t, clock, k, callFails)
  }

  /** `scheduledSiteSync()`: when disabled it reads no clock and calls
      nothing; when enabled it reads the clock once for the log and calls
      `syncSites()` once. Either way the tracker is untouched and nothing
      escapes: every exception of the sync is caught. */
  function ScheduledSiteSync(cfg: Config, t: Tracker, syncOutcome: Result<string, Throwable>): (o: Outcome)
    ensures o.tracker == t && o.thrown.None?
    ensures o.effects == (if cfg.siteSyncEnabled then [SyncSitesCall] else [])
    ensures o.readings == (if cfg.siteSyncEnabled then 1 else 0)
  {
    if !cfg.siteSyncEnabled then Outcome(t, [], 0, None)
    else
      match syncOutcome
      case Success(_) => Outcome(t, [SyncSitesCall], 1, None)
      case Failure(_) => Outcome(t, [SyncSitesCall], 1, None)
  }

  /** `getScheduleIntervalMs()`. */
  function GetScheduleIntervalMs(): (ms: int)
    ensures ms * JobExecution.NanosPerMilli == TwoMinutes
  {
    AnnouncedIsInterval();
    ScheduleIntervalMs
  }
}

/** `com.example.scheduler.service.ScheduledTaskService`: only the
    fixed-rate API call, with the same tracking as the other service. */
module ExampleScheduledTaskService {
  import opened Wrappers
  import opened JavaLang
  import opened ExecutionTracking

  /** `scheduledApiCall()`: the shared tracking and call. */
  function ScheduledApiCall(t: Tracker, clock: Clock, k: nat, callFails: Option<Throwable>): Outcome {
    ApiCall(t, clock, k, callFails)
  }

  /** `getScheduleIntervalMs()`. */
  function GetScheduleIntervalMs(): (ms: int)
    ensures ms * JobExecution.NanosPerMilli == TwoMinutes
  {
    AnnouncedIsInterval();
    ScheduleIntervalMs
  }
}
