/** `SiteSyncService`: one site-sync run. It records a RUNNING job, fetches
    the site list from the master service, stores a JSON snapshot of the
    list in the job, asks the mock API for each site's details by cluster
    name, tallies successes and failures, and finishes the job. The fetch,
    every lookup and every `Thread.sleep` are oracles; saving a job record
    appends it to the run's trace. */
module SiteSyncService {
  import opened Wrappers
  import opened JavaLang
  import opened JobExecution
  import opened SiteDto
  import opened SiteSnapshot
  import MockApiController

  const JobName := "SITE_SYNC_JOB"
  const NoSitesMessage := "Site sync completed - no sites found"
  const JobFailedMessage := "Site sync job failed"
  const SyncFailedMessage := "Site sync failed"

  /** What one `mockApiService.getSiteDetails(clusterName)` call gives: the
      rows (possibly a null list), or the exception it threw. */
  type Lookup = Result<Option<seq<MockApiController.Row>>, Throwable>

  /** `mockResponse != null && !mockResponse.isEmpty()`. */
  predicate Found(o: Lookup) {
    o.Success? && o.value.Some? && o.value.value != []
  }

  /** The lookup oracle: what the call for the i-th site, with its cluster
      name, returns. */
  type LookupOracle = (nat, Option<string>) -> Lookup

  /** Whether the `Thread.sleep(100)` after the i-th lookup is interrupted. */
  type SleepOracle = nat -> bool

  /** What the run does, in order: saves of the job record, the fetch, and
      the lookups with the cluster name they pass. */
  datatype Event = Saved(job: Job) | Fetched | LookedUp(clusterName: Option<string>)

  datatype Counts = Counts(processed: nat, success: nat, failure: nat)

  // ---------------------------------------------------------------------
  // The tally, by the sites
  // ---------------------------------------------------------------------

  /** What the loop body adds for one site. A lookup that throws is one
      failure. Otherwise the site is one success or one failure, and when
      the sleep after it is interrupted the catch block counts it a second
      time, as a failure. */
  function SiteCounts(o: Lookup, interrupted: bool): (c: Counts)
    ensures c.processed == c.success + c.failure
    ensures c.success == if Found(o) then 1 else 0
    ensures c.processed == if o.Success? && interrupted then 2 else 1
  {
    if o.Failure? then Counts(1, 0, 1)
    else
      var first := if Found(o) then Counts(1, 1, 0) else Counts(1, 0, 1);
      if interrupted then Counts(2, first.success, first.failure + 1) else first
  }

  function Plus(a: Counts, b: Counts): Counts {
    Counts(a.processed + b.processed, a.success + b.success, a.failure + b.failure)
  }

  /** The counts after the first `n` sites. */
  function Tally(sites: seq<Site>, lookup: LookupOracle, sleep: SleepOracle, n: nat): (c: Counts)
    requires n <= |sites|
    ensures c.processed == c.success + c.failure
    ensures n <= c.processed <= 2 * n
    ensures c.success <= n
  {
    if n == 0 then Counts(0, 0, 0)
    else Plus(Tally(sites, lookup, sleep, n - 1), SiteCounts(lookup(n - 1, sites[n - 1].clusterName), sleep(n - 1)))
  }

  /** The sites whose lookup found rows, among the first `n`. */
  function FoundCount(sites: seq<Site>, lookup: LookupOracle, n: nat): nat
    requires n <= |sites|
  {
    if n == 0 then 0
    else FoundCount(sites, lookup, n - 1) + (if Found(lookup(n - 1, sites[n - 1].clusterName)) then 1 else 0)
  }

  /** The lookups that returned and whose sleep was interrupted, among the first `n`. */
  function InterruptedCount(sites: seq<Site>, lookup: LookupOracle, sleep: SleepOracle, n: nat): nat
    requires n <= |sites|
  {
    if n == 0 then 0
    else InterruptedCount(sites, lookup, sleep, n - 1)
         + (if lookup(n - 1, sites[n - 1].clusterName).Success? && sleep(n - 1) then 1 else 0)
  }

  /** The successes are exactly the sites whose lookup found rows; every site
      is processed once, and once more for each interrupted sleep. */
  lemma {:induction false} TallyCounts(sites: seq<Site>, lookup: LookupOracle, sleep: SleepOracle, n: nat)
    requires n <= |sites|
    ensures Tally(sites, lookup, sleep, n).success == FoundCount(sites, lookup, n)
    ensures Tally(sites, lookup, sleep, n).processed == n + InterruptedCount(sites, lookup, sleep, n)
  {
    if n > 0 {
      TallyCounts(sites, lookup, sleep, n - 1);
    }
  }

  /** Without interrupted sleeps, `processed` is the number of sites and
      `failure` the number of sites whose lookup found nothing or threw. */
  lemma NoInterruptsProcessesEachOnce(sites: seq<Site>, lookup: LookupOracle, sleep: SleepOracle)
    requires forall i :: 0 <= i < |sites| ==> !sleep(i)
    ensures Tally(sites, lookup, sleep, |sites|).processed == |sites|
    ensures Tally(sites, lookup, sleep, |sites|).failure == |sites| - FoundCount(sites, lookup, |sites|)
  {
    NoInterruptsCount(sites, lookup, sleep, |sites|);
    TallyCounts(sites, lookup, sleep, |sites|);
  }

  lemma {:induction false} NoInterruptsCount(sites: seq<Site>, lookup: LookupOracle, sleep: SleepOracle, n: nat)
    requires n <= |sites|
    requires forall i :: 0 <= i < n ==> !sleep(i)
    ensures InterruptedCount(sites, lookup, sleep, n) == 0
  {
    if n > 0 {
      NoInterruptsCount(sites, lookup, sleep, n - 1);
    }
  }

  // ---------------------------------------------------------------------
  // The run
  // ---------------------------------------------------------------------

  /** The summary `String.format` builds on normal completion. */
  function Summary(c: Counts): string {
    "Site sync completed successfully. Processed: " + IntToString(c.processed)
    + ", Success: " + IntToString(c.success)
    + ", Failed: " + IntToString(c.failure) + " (Mock API calls)"
  }

  /** The record `new JobExecution(jobId, "SITE_SYNC_JOB")` creates from the
      first three clock readings. */
  function Started(jobId: string, clock: Clock): (j: Job)
    ensures j.status == Some(Running) && j.jobName == Some(JobName) && j.jobId == Some(jobId)
    ensures j.startTime == Some(clock(2)) && j.endTime.None? && j.durationMs.None? && j.errorMessage.None?
  {
    Start(Some(jobId), Some(JobName), clock(0), clock(1), clock(2))
  }

  /** The record after `setApiResponse(snapshot)`, saved before the lookups. */
  function Stored(jobId: string, clock: Clock, snapshot: string): Job {
    ApplySetter(Started(jobId, clock), SetApiResponse(Some(snapshot)), clock(3))
  }

  /** The record after `setRecordsProcessed(processed)` and `complete()`. */
  function Finished(stored: Job, processed: nat, clock: Clock): Job {
    Complete(stored.(recordsProcessed := Some(processed)), clock(4), clock(5)).job
  }

  /** The body of the loop for one site, given what its lookup gave and
      whether the sleep after it was interrupted: the counters grow by
      exactly what the site adds. */
  method CountSite(response: Lookup, interrupted: bool, processed0: nat, success0: nat, failure0: nat)
    returns (processed: nat, success: nat, failure: nat)
    ensures Counts(processed, success, failure) == Plus(Counts(processed0, success0, failure0), SiteCounts(response, interrupted))
  {
    processed, success, failure := processed0, success0, failure0;
    if response.Failure? {
      failure := failure + 1;
      processed := processed + 1;
    } else {
      if Found(response) {
        success := success + 1;
      } else {
        failure := failure + 1;
      }
      processed := processed + 1;
      if interrupted {
        failure := failure + 1;
        processed := processed + 1;
      }
    }
  }

  /** The loop over the sites: one lookup per site, in list order, with the
      cluster name, and the counters it keeps. */
  method LookupAll(sites: seq<Site>, lookup: LookupOracle, sleep: SleepOracle)
    returns (c: Counts, events: seq<Event>)
    ensures c == Tally(sites, lookup, sleep, |sites|)
    ensures |events| == |sites|
    ensures forall i :: 0 <= i < |sites| ==> events[i] == LookedUp(sites[i].clusterName)
  {
    var processed, success, failure := 0, 0, 0;
    events := [];
    var i := 0;
    while i < |sites|
      invariant 0 <= i <= |sites|
      invariant Counts(processed, success, failure) == Tally(sites, lookup, sleep, i)
      invariant |events| == i
      invariant forall k :: 0 <= k < i ==> events[k] == LookedUp(sites[k].clusterName)
    {
      events := events + [LookedUp(sites[i].clusterName)];
      var response := lookup(i, sites[i].clusterName);
      processed, success, failure := CountSite(response, sleep(i), processed, success, failure);
      i := i + 1;
    }
    c := Counts(processed, success, failure);
  }

  /** `syncSitesAsync()`, run to its end (the asynchronous hand-off is left
      out). `fetch` is what `masterServiceClient.getSites()` returned or
      threw. The RUNNING record is saved before the fetch. A failed fetch
      marks the record FAILED with the exception's message, makes no
      lookup, and escapes wrapped. An empty list completes the record with
      zero records and makes no lookup. Otherwise the snapshot is stored and
      saved, each site is looked up once, in list order, by its cluster
      name, and the record is completed with the processed count, which the
      summary reports with the success and failure counts. */
  method SyncSitesAsync(jobId: string, clock: Clock, fetch: Result<seq<Site>, Throwable>,
                        lookup: LookupOracle, sleep: SleepOracle)
    returns (result: Result<string, Throwable>, trace: seq<Event>)
    ensures |trace| >= 3 && trace[0] == Saved(Started(jobId, clock)) && trace[1] == Fetched
    ensures fetch.Failure? ==>
              && result == Failure(WrapRuntime(JobFailedMessage, fetch.error))
              && trace == [Saved(Started(jobId, clock)), Fetched,
                           Saved(Fail(Started(jobId, clock), fetch.error.message, clock(3), clock(4)).job)]
    ensures fetch == Success([]) ==>
              && result == Success(NoSitesMessage)
              && trace == [Saved(Started(jobId, clock)), Fetched,
                           Saved(Complete(Started(jobId, clock).(recordsProcessed := Some(0)), clock(3), clock(4)).job)]
    ensures fetch.Success? && fetch.value != [] ==>
              var sites := fetch.value;
              var stored := Stored(jobId, clock, ConvertSitesToJson(sites));
              var c := Tally(sites, lookup, sleep, |sites|);
              && result == Success(Summary(c))
              && |trace| == |sites| + 4
              && trace[2] == Saved(stored)
              && (forall i :: 0 <= i < |sites| ==> trace[i + 3] == LookedUp(sites[i].clusterName))
              && trace[|sites| + 3] == Saved(Finished(stored, c.processed, clock))
  {
    var job := Started(jobId, clock);
    trace := [Saved(job), Fetched];
    match fetch
    case Failure(e) =>
      var failed := Fail(job, e.message, clock(3), clock(4));
      trace := trace + [Saved(failed.job)];
      result := Failure(WrapRuntime(JobFailedMessage, e));
    case Success(sites) =>
      if sites == [] {
        var done := Complete(job.(recordsProcessed := Some(0)), clock(3), clock(4));
        trace := trace + [Saved(done.job)];
        result := Success(NoSitesMessage);
        return;
      }
      var summary;
      summary, trace := ProcessSites(trace, Stored(jobId, clock, ConvertSitesToJson(sites)), sites, clock, lookup, sleep);
      result := Success(summary);
  }

  /** The part of a run with sites after the fetch: save the record holding
      the snapshot, look every site up, save the completed record. */
  method ProcessSites(before: seq<Event>, stored: Job, sites: seq<Site>, clock: Clock,
                      lookup: LookupOracle, sleep: SleepOracle)
    returns (summary: string, trace: seq<Event>)
    requires |before| == 2
    ensures var c := Tally(sites, lookup, sleep, |sites|);
            && summary == Summary(c)
            && |trace| == |sites| + 4
            && trace[0] == before[0] && trace[1] == before[1]
            && trace[2] == Saved(stored)
            && (forall i :: 0 <= i < |sites| ==> trace[i + 3] == LookedUp(sites[i].clusterName))
            && trace[|sites| + 3] == Saved(Finished(stored, c.processed, clock))
  {
    var c, events := LookupAll(sites, lookup, sleep);
    var last := Saved(Finished(stored, c.processed, clock));
    trace := Around(before + [Saved(stored)], events, last);
    summary := Summary(c);
  }

  /** `head + middle + [last]`, indexed piece by piece. */
  function Around<T>(head: seq<T>, middle: seq<T>, last: T): (r: seq<T>)
    ensures |r| == |head| + |middle| + 1
    ensures forall i :: 0 <= i < |head| ==> r[i] == head[i]
    ensures forall i :: 0 <= i < |middle| ==> r[|head| + i] == middle[i]
    ensures r[|head| + |middle|] == last
  {
    head + middle + [last]
  }

  /** The final record of a run with sites: COMPLETED, holding the snapshot
      and the processed count, with no error message and (on a monotone
      clock) a duration that is not negative. */
  lemma FinalRecord(jobId: string, clock: Clock, snapshot: string, processed: nat)
    requires Monotone(clock)
    ensures var done := Finished(Stored(jobId, clock, snapshot), processed, clock);
            && done.status == Some(Completed)
            && done.recordsProcessed == Some(processed)
            && done.apiResponse == Some(snapshot)
            && done.errorMessage.None?
            && done.durationMs.Some? && done.durationMs.value >= 0
  {
    var started := Started(jobId, clock);
    var stored := Stored(jobId, clock, snapshot);
    assert Get(stored, StartTimeField) == Get(started, StartTimeField);
    assert Get(stored, ErrorMessageField) == Get(started, ErrorMessageField);
    assert Get(stored, ApiResponseField) == TextValue(Some(snapshot));
    var before := stored.(recordsProcessed := Some(processed));
    var done := Complete(before, clock(4), clock(5));
    assert Get(done.job, RecordsProcessedField) == Get(before, RecordsProcessedField);
    assert Get(done.job, ApiResponseField) == Get(before, ApiResponseField);
    assert Get(done.job, ErrorMessageField) == Get(before, ErrorMessageField);
    assert clock(2) <= clock(4);
  }

  /** An empty site list leaves a COMPLETED record with zero records
      processed, no snapshot and no error message, and (on a monotone clock)
      a duration that is not negative. */
  lemma EmptyRunRecord(jobId: string, clock: Clock)
    requires Monotone(clock)
    ensures var done := Complete(Started(jobId, clock).(recordsProcessed := Some(0)), clock(3), clock(4));
            && done.thrown.None?
            && done.job.status == Some(Completed)
            && done.job.recordsProcessed == Some(0)
            && done.job.apiResponse.None?
            && done.job.errorMessage.None?
            && done.job.durationMs.Some? && done.job.durationMs.value >= 0
  {
    var before := Started(jobId, clock).(recordsProcessed := Some(0));
    var done := Complete(before, clock(3), clock(4));
    assert Get(done.job, RecordsProcessedField) == Get(before, RecordsProcessedField);
    assert Get(done.job, ApiResponseField) == Get(before, ApiResponseField);
    assert Get(done.job, ErrorMessageField) == Get(before, ErrorMessageField);
    assert clock(2) <= clock(3);
  }

  /** A failed fetch leaves a FAILED record carrying the exception's message
      and (on a monotone clock) a duration that is not negative. */
  lemma FailedFetchRecord(jobId: string, clock: Clock, e: Throwable)
    requires Monotone(clock)
    ensures var failed := Fail(Started(jobId, clock), e.message, clock(3), clock(4));
            && failed.thrown.None?
            && failed.job.status == Some(Failed)
            && failed.job.errorMessage == e.message
            && failed.job.durationMs.Some? && failed.job.durationMs.value >= 0
  {
    assert clock(2) <= clock(3);
  }

  // ---------------------------------------------------------------------
  // syncSites()
  // ---------------------------------------------------------------------

  /** The ExecutionException `CompletableFuture.get()` throws for a run that
      threw `e`; its message is `e.toString()`, given by `describe`. */
  function ExecutionFailure(e: Throwable, describe: Throwable -> string): (t: Throwable)
    ensures t.cause == Some(e)
  {
    Throwable(OtherException("java.util.concurrent.ExecutionException"), Some(describe(e)), Some(e))
  }

  /** `syncSites()`: the run's summary, or a RuntimeException whose cause is
      the ExecutionException around whatever the run threw. */
  function SyncSites(run: Result<string, Throwable>, describe: Throwable -> string): (r: Result<string, Throwable>)
    ensures run.Success? <==> r.Success?
    ensures run.Success? ==> r == run
    ensures run.Failure? ==> r.error.kind == Runtime && r.error.message == Some(SyncFailedMessage)
                             && |Chain(r.error)| == |Chain(run.error)| + 2 && Chain(r.error)[2..] == Chain(run.error)
  {
    match run
    case Success(_) => run
    case Failure(e) => Failure(WrapRuntime(SyncFailedMessage, ExecutionFailure(e, describe)))
  }

  /** When the fetch fails, the exception `syncSites()` throws has the
      fetch's exception four links down its cause chain: sync failed, the
      execution, job failed, the fetch. */
  lemma FetchErrorReachesCaller(e: Throwable, describe: Throwable -> string)
    ensures var r := SyncSites(Failure(WrapRuntime(JobFailedMessage, e)), describe);
            r.Failure? && |Chain(r.error)| >= 4 && Chain(r.error)[3] == e
  {
    var inner := WrapRuntime(JobFailedMessage, e);
    assert Chain(inner)[1..] == Chain(e);
  }
}
