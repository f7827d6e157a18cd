/** The persisted record of one job run (`JobExecution` entity, table
    `job_details`): a small state machine. A fresh record is RUNNING;
    `complete()` and `fail(msg)` stamp the end time and the duration. Every
    `LocalDateTime.now()` the source calls is a parameter here (a reading of
    an explicit clock), and a record is an immutable value: a setter returns
    the updated record. */
module JobExecution {
  import opened Wrappers
  import opened JavaLang

  const NanosPerMilli: int := 1_000_000

  datatype JobStatus = Running | Completed | Failed | Cancelled

  /** One row of `job_details`. Nullable columns are `Option`s; `create_ts`
      and `update_ts` are NOT NULL and always set by the constructors. */
  datatype Job = Job(
    id: Option<int>,
    jobId: Option<string>,
    jobName: Option<string>,
    status: Option<JobStatus>,
    startTime: Option<Time>,
    endTime: Option<Time>,
    durationMs: Option<int>,
    recordsProcessed: Option<int>,
    errorMessage: Option<string>,
    apiResponse: Option<string>,
    createTs: Time,
    updateTs: Time)

  /** `Duration.between(start, end).toMillis()`: whole milliseconds, rounded
      toward zero (the sub-second nanoseconds are divided with Java's
      truncating `/` once a negative duration's seconds have been adjusted). */
  function DurationMillis(start: Time, end: Time): (ms: int)
    ensures start <= end ==> ms * NanosPerMilli <= end - start < (ms + 1) * NanosPerMilli
    ensures end < start ==> (ms - 1) * NanosPerMilli < end - start <= ms * NanosPerMilli
    ensures start <= end ==> ms >= 0
    ensures end < start ==> ms <= 0
  {
    if start <= end then (end - start) / NanosPerMilli else -((start - end) / NanosPerMilli)
  }

  /** Rounding toward zero: a duration one nanosecond negative is zero
      milliseconds, and one and a half milliseconds negative is minus one. */
  lemma DurationTruncates(start: Time)
    ensures DurationMillis(start, start - 1) == 0
    ensures DurationMillis(start, start - 1_500_000) == -1
  {
  }

  // ---------------------------------------------------------------------
  // Constructors
  // ---------------------------------------------------------------------

  /** `new JobExecution()`: only the two timestamps are set, from two clock readings. */
  function Blank(tCreate: Time, tUpdate: Time): (j: Job)
    ensures j.createTs == tCreate && j.updateTs == tUpdate
    ensures j.id.None? && j.jobId.None? && j.jobName.None? && j.status.None?
    ensures j.startTime.None? && j.endTime.None? && j.durationMs.None?
    ensures j.recordsProcessed.None? && j.errorMessage.None? && j.apiResponse.None?
  {
    Job(None, None, None, None, None, None, None, None, None, None, tCreate, tUpdate)
  }

  /** `new JobExecution(jobId, jobName)`: the blank record, then RUNNING and
      `startTime` from a third clock reading. */
  function Start(jobId: Option<string>, jobName: Option<string>, tCreate: Time, tUpdate: Time, tStart: Time): (j: Job)
    ensures j.jobId == jobId && j.jobName == jobName
    ensures j.status == Some(Running) && j.startTime == Some(tStart)
    ensures j.endTime.None? && j.durationMs.None? && j.errorMessage.None?
    ensures j.id.None? && j.recordsProcessed.None? && j.apiResponse.None?
    ensures j.createTs == tCreate && j.updateTs == tUpdate
  {
    Blank(tCreate, tUpdate).(jobId := jobId, jobName := jobName, status := Some(Running), startTime := Some(tStart))
  }

  // ---------------------------------------------------------------------
  // Fields, getters and setters
  // ---------------------------------------------------------------------

  datatype Field =
    | IdField | JobIdField | JobNameField | StatusField | StartTimeField | EndTimeField
    | DurationMsField | RecordsProcessedField | ErrorMessageField | ApiResponseField
    | CreateTsField | UpdateTsField

  /** A field's value, whatever its Java type. */
  datatype Value =
    | IntValue(i: Option<int>)
    | TextValue(t: Option<string>)
    | StatusValue(s: Option<JobStatus>)
    | TimeValue(time: Option<Time>)

  /** The getter of field `f`. */
  function Get(j: Job, f: Field): Value {
    match f
    case IdField => IntValue(j.id)
    case JobIdField => TextValue(j.jobId)
    case JobNameField => TextValue(j.jobName)
    case StatusField => StatusValue(j.status)
    case StartTimeField => TimeValue(j.startTime)
    case EndTimeField => TimeValue(j.endTime)
    case DurationMsField => IntValue(j.durationMs)
    case RecordsProcessedField => IntValue(j.recordsProcessed)
    case ErrorMessageField => TextValue(j.errorMessage)
    case ApiResponseField => TextValue(j.apiResponse)
    case CreateTsField => TimeValue(Some(j.createTs))
    case UpdateTsField => TimeValue(Some(j.updateTs))
  }

  /** A call of one of the entity's setters, with its argument. */
  datatype Setter =
    | SetId(id: Option<int>)
    | SetJobId(jobId: Option<string>)
    | SetJobName(jobName: Option<string>)
    | SetStatus(status: Option<JobStatus>)
    | SetStartTime(startTime: Option<Time>)
    | SetEndTime(endTime: Option<Time>)
    | SetDurationMs(durationMs: Option<int>)
    | SetRecordsProcessed(recordsProcessed: Option<int>)
    | SetErrorMessage(errorMessage: Option<string>)
    | SetApiResponse(apiResponse: Option<string>)
    | SetCreateTs(createTs: Time)
    | SetUpdateTs(updateTs: Time)

  /** The field a setter is named after. */
  function Target(op: Setter): Field {
    match op
    case SetId(_) => IdField
    case SetJobId(_) => JobIdField
    case SetJobName(_) => JobNameField
    case SetStatus(_) => StatusField
    case SetStartTime(_) => StartTimeField
    case SetEndTime(_) => EndTimeField
    case SetDurationMs(_) => DurationMsField
    case SetRecordsProcessed(_) => RecordsProcessedField
    case SetErrorMessage(_) => ErrorMessageField
    case SetApiResponse(_) => ApiResponseField
    case SetCreateTs(_) => CreateTsField
    case SetUpdateTs(_) => UpdateTsField
  }

  /** The argument of a setter, as a field value. */
  function Argument(op: Setter): Value {
    match op
    case SetId(v) => IntValue(v)
    case SetJobId(v) => TextValue(v)
    case SetJobName(v) => TextValue(v)
    case SetStatus(v) => StatusValue(v)
    case SetStartTime(v) => TimeValue(v)
    case SetEndTime(v) => TimeValue(v)
    case SetDurationMs(v) => IntValue(v)
    case SetRecordsProcessed(v) => IntValue(v)
    case SetErrorMessage(v) => TextValue(v)
    case SetApiResponse(v) => TextValue(v)
    case SetCreateTs(v) => TimeValue(Some(v))
    case SetUpdateTs(v) => TimeValue(Some(v))
  }

  /** The four setters that also stamp `updateTs` with the current time. */
  predicate RefreshesUpdateTs(op: Setter) {
    op.SetStatus? || op.SetEndTime? || op.SetErrorMessage? || op.SetApiResponse?
  }

  /** Calls setter `op` on `j`; `now` is the clock reading taken by the four
      setters that refresh `updateTs` (the others read no clock). */
  function ApplySetter(j: Job, op: Setter, now: Time): (r: Job)
    ensures Get(r, Target(op)) == Argument(op)
    ensures forall f :: f != Target(op) && f != UpdateTsField ==> Get(r, f) == Get(j, f)
    ensures RefreshesUpdateTs(op) ==> r.updateTs == now
    ensures !RefreshesUpdateTs(op) && !op.SetUpdateTs? ==> r.updateTs == j.updateTs
  {
    match op
    case SetId(v) => j.(id := v)
    case SetJobId(v) => j.(jobId := v)
    case SetJobName(v) => j.(jobName := v)
    case SetStatus(v) => j.(status := v, updateTs := now)
    case SetStartTime(v) => j.(startTime := v)
    case SetEndTime(v) => j.(endTime := v, updateTs := now)
    case SetDurationMs(v) => j.(durationMs := v)
    case SetRecordsProcessed(v) => j.(recordsProcessed := v)
    case SetErrorMessage(v) => j.(errorMessage := v, updateTs := now)
    case SetApiResponse(v) => j.(apiResponse := v, updateTs := now)
    case SetCreateTs(v) => j.(createTs := v)
    case SetUpdateTs(v) => j.(updateTs := v)
  }

  // ---------------------------------------------------------------------
  // complete() and fail(msg)
  // ---------------------------------------------------------------------

  /** The record after a call, and the exception the call threw, if any.
      A Java method that throws half-way leaves its earlier assignments in
      place, so `job` is meaningful in both cases. */
  datatype Mutation = Mutation(job: Job, thrown: Option<Throwable>)

  /** The NullPointerException `Duration.between` throws on a null start time;
      its text stands for the one the JVM composes. */
  const NullStart: Throwable := JvmRaised(NullPointer, "startInclusive is null")

  /** `complete()`: status COMPLETED, `endTime` from one clock reading, the
      duration in milliseconds, and `updateTs` from a second reading. When
      `startTime` is null the duration cannot be computed: status and end time
      are already assigned and a NullPointerException escapes. */
  function Complete(j: Job, tEnd: Time, tUpdate: Time): (m: Mutation)
    ensures m.job.status == Some(Completed) && m.job.endTime == Some(tEnd)
    ensures j.startTime.Some? ==> m.thrown.None? && m.job.updateTs == tUpdate
                                  && m.job.durationMs == Some(DurationMillis(j.startTime.value, tEnd))
    ensures j.startTime.Some? && j.startTime.value <= tEnd ==> m.job.durationMs.value >= 0
    ensures j.startTime.None? ==> m.thrown.Some? && RaisedByJvm(m.thrown.value, NullPointer) && m.job.durationMs == j.durationMs
                                  && m.job.updateTs == j.updateTs
    ensures forall f :: f !in {StatusField, EndTimeField, DurationMsField, UpdateTsField} ==> Get(m.job, f) == Get(j, f)
  {
    var ended := j.(status := Some(Completed), endTime := Some(tEnd));
    match j.startTime
    case None => Mutation(ended, Some(NullStart))
    case Some(start) =>
      Mutation(ended.(durationMs := Some(DurationMillis(start, tEnd)), updateTs := tUpdate), None)
  }

  /** `fail(msg)`: as `complete()` but status FAILED, and the message is stored
      after the duration, so a null start time leaves the message unset. */
  function Fail(j: Job, message: Option<string>, tEnd: Time, tUpdate: Time): (m: Mutation)
    ensures m.job.status == Some(Failed) && m.job.endTime == Some(tEnd)
    ensures j.startTime.Some? ==> m.thrown.None? && m.job.updateTs == tUpdate && m.job.errorMessage == message
                                  && m.job.durationMs == Some(DurationMillis(j.startTime.value, tEnd))
    ensures j.startTime.Some? && j.startTime.value <= tEnd ==> m.job.durationMs.value >= 0
    ensures j.startTime.None? ==> m.thrown.Some? && RaisedByJvm(m.thrown.value, NullPointer) && m.job.durationMs == j.durationMs
                                  && m.job.errorMessage == j.errorMessage && m.job.updateTs == j.updateTs
    ensures forall f :: f !in {StatusField, EndTimeField, DurationMsField, ErrorMessageField, UpdateTsField} ==> Get(m.job, f) == Get(j, f)
  {
    var ended := j.(status := Some(Failed), endTime := Some(tEnd));
    match j.startTime
    case None => Mutation(ended, Some(NullStart))
    case Some(start) =>
      Mutation(ended.(durationMs := Some(DurationMillis(start, tEnd)), errorMessage := message, updateTs := tUpdate), None)
  }

  // ---------------------------------------------------------------------
  // Sequences of calls
  // ---------------------------------------------------------------------

  /** One call on the record. */
  datatype Op = Call(setter: Setter) | CompleteOp | FailOp(message: Option<string>)

  /** How many clock readings a call on `j` takes: `complete` and `fail` read
      the clock once for `endTime` and, unless the null start time makes them
      throw in between, once more for `updateTs`. */
  function Readings(j: Job, op: Op): nat {
    match op
    case Call(s) => if RefreshesUpdateTs(s) then 1 else 0
    case CompleteOp => if j.startTime.None? then 1 else 2
    case FailOp(_) => if j.startTime.None? then 1 else 2
  }

  /** One call, with the clock's readings `k`, `k + 1`, ... */
  function Step(j: Job, op: Op, clock: Clock, k: nat): Mutation {
    match op
    case Call(s) => Mutation(ApplySetter(j, s, clock(k)), None)
    case CompleteOp => Complete(j, clock(k), clock(k + 1))
    case FailOp(msg) => Fail(j, msg, clock(k), clock(k + 1))
  }

  /** The record after the calls `ops`, in order, starting at clock reading
      `k`. A caller that catches an exception keeps using the record, so a
      throwing call still contributes its partial assignments. */
  function Run(j: Job, ops: seq<Op>, clock: Clock, k: nat): Job
    decreases |ops|
  {
    if ops == [] then j
    else Run(Step(j, ops[0], clock, k).job, ops[1..], clock, k + Readings(j, ops[0]))
  }

  /** `complete` and `fail` take a second reading exactly when they do not
      throw, so a caller that catches the exception and goes on with another
      call hands that call the reading right after the end time's. */
  lemma FinishReadings(j: Job, finish: Op, s: Setter, clock: Clock, k: nat)
    requires finish.CompleteOp? || finish.FailOp?
    ensures Readings(j, finish) == (if Step(j, finish, clock, k).thrown.Some? then 1 else 2)
    ensures j.startTime.None? && RefreshesUpdateTs(s) ==>
              Run(j, [finish, Call(s)], clock, k).updateTs == clock(k + 1)
  {
    if j.startTime.None? && RefreshesUpdateTs(s) {
      var m := Step(j, finish, clock, k);
      assert [finish, Call(s)][1..] == [Call(s)];
      assert Run(m.job, [Call(s)], clock, k + 1) == ApplySetter(m.job, s, clock(k + 1));
    }
  }

  /** No method of the entity moves a record to CANCELLED on its own: only an
      explicit `setStatus(CANCELLED)` does. */
  lemma {:induction false} CancelledOnlyBySetStatus(j: Job, ops: seq<Op>, clock: Clock, k: nat)
    requires j.status != Some(Cancelled)
    requires forall i :: 0 <= i < |ops| ==> ops[i] != Call(SetStatus(Some(Cancelled)))
    ensures Run(j, ops, clock, k).status != Some(Cancelled)
    decreases |ops|
  {
    if ops != [] {
      var m := Step(j, ops[0], clock, k);
      assert m.job.status != Some(Cancelled) by {
        if ops[0].Call? {
          assert Get(m.job, StatusField) == Get(j, StatusField) || ops[0].setter.SetStatus?;
        }
      }
      CancelledOnlyBySetStatus(m.job, ops[1..], clock, k + Readings(j, ops[0]));
    }
  }

  /** The call that writes none of start time, end time and duration by hand. */
  predicate KeepsTiming(op: Op) {
    !(op.Call? && (op.setter.SetStartTime? || op.setter.SetEndTime? || op.setter.SetDurationMs?))
  }

  /** Every duration the record carries was computed by `complete`/`fail`
      from its start time and end time. */
  ghost predicate DurationSound(j: Job) {
    j.durationMs.Some? ==>
      j.startTime.Some? && j.endTime.Some? && j.durationMs.value == DurationMillis(j.startTime.value, j.endTime.value)
  }

  /** Under a monotone clock, a record started at reading `k0` and then only
      completed, failed or updated through setters that leave the timing alone
      never carries a negative duration, however often `complete` and `fail`
      are called and in whatever order: the last call wins. */
  lemma {:induction false} DurationNeverNegative(j: Job, ops: seq<Op>, clock: Clock, k0: nat, k: nat)
    requires Monotone(clock)
    requires k0 <= k && j.startTime == Some(clock(k0))
    requires DurationSound(j) && (j.endTime.Some? ==> j.endTime.value >= clock(k0))
    requires forall i :: 0 <= i < |ops| ==> KeepsTiming(ops[i])
    ensures var r := Run(j, ops, clock, k); DurationSound(r) && (r.durationMs.Some? ==> r.durationMs.value >= 0)
    decreases |ops|
  {
    if ops == [] {
      if j.durationMs.Some? {
        assert j.startTime.value <= j.endTime.value;
      }
    } else {
      StepKeepsDurationSound(j, ops[0], clock, k0, k);
      DurationNeverNegative(Step(j, ops[0], clock, k).job, ops[1..], clock, k0, k + Readings(j, ops[0]));
    }
  }

  /** One call of `DurationNeverNegative`'s sequence keeps its invariant. */
  lemma StepKeepsDurationSound(j: Job, op: Op, clock: Clock, k0: nat, k: nat)
    requires Monotone(clock)
    requires k0 <= k && j.startTime == Some(clock(k0))
    requires DurationSound(j) && (j.endTime.Some? ==> j.endTime.value >= clock(k0))
    requires KeepsTiming(op)
    ensures var m := Step(j, op, clock, k);
            m.job.startTime == j.startTime && DurationSound(m.job) && (m.job.endTime.Some? ==> m.job.endTime.value >= clock(k0))
  {
  }


  /** A fresh run completed or failed later on a monotone clock has a
      non-negative duration equal to the whole milliseconds between its
      start and end. */
  lemma StartThenFinish(jobId: Option<string>, jobName: Option<string>, clock: Clock, k: nat, message: Option<string>, fails: bool)
    requires Monotone(clock)
    ensures var j := Start(jobId, jobName, clock(k), clock(k + 1), clock(k + 2));
            var m := if fails then Fail(j, message, clock(k + 3), clock(k + 4)) else Complete(j, clock(k + 3), clock(k + 4));
            && m.thrown.None?
            && m.job.status == Some(if fails then Failed else Completed)
            && m.job.durationMs == Some(DurationMillis(clock(k + 2), clock(k + 3)))
            && m.job.durationMs.value >= 0
  {
    assert clock(k + 2) <= clock(k + 3);
  }
}
