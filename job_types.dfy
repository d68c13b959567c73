/**
 * The job records of the config server's asynchronous job manager
 * (services/config-server/internal/pkg/jobmanager/types.go).  Instants and durations are
 * integers in nanoseconds; `time.Since` takes the current instant as a parameter.
 */
module JobTypes {
  import opened Wrappers
  import opened Values

  /** A job status is a string; these are the five the manager uses. */
  type JobStatus = string

  const StatusPending: JobStatus := "pending"
  const StatusRunning: JobStatus := "running"
  const StatusCompleted: JobStatus := "completed"
  const StatusFailed: JobStatus := "failed"
  const StatusCancelled: JobStatus := "cancelled"

  /** `JobStatus.IsTerminal`. */
  predicate IsTerminal(s: JobStatus) {
    s == StatusCompleted || s == StatusFailed || s == StatusCancelled
  }

  /** `Job`; `Result` is a decoded JSON value. */
  datatype Job = Job(id: string, jobType: string, status: JobStatus, result: Value,
                     error: string, progress: int, createdAt: int,
                     startedAt: Option<int>, endedAt: Option<int>)

  /** `Job.Duration` at the instant `now`. */
  function Duration(j: Job, now: int): (d: int)
    ensures j.startedAt.None? ==> d == 0
    ensures j.startedAt.Some? && j.endedAt.None? ==> d == now - j.startedAt.value
    ensures j.startedAt.Some? && j.endedAt.Some? ==> d == j.endedAt.value - j.startedAt.value
  {
    if j.startedAt.None? then 0
    else if j.endedAt.None? then now - j.startedAt.value
    else j.endedAt.value - j.startedAt.value
  }

  const Second: int := 1_000_000_000
  const Minute: int := 60 * Second
  const Hour: int := 60 * Minute

  /** `Config`. */
  datatype Config = Config(maxWorkers: int, jobTtl: int, cleanupInterval: int, queueSize: int)

  /** `DefaultConfig`. */
  function DefaultConfig(): (c: Config)
    ensures c.maxWorkers == 5 && c.queueSize == 100
    ensures c.jobTtl == 3600 * Second && c.cleanupInterval == 300 * Second
  {
    Config(5, Hour, 5 * Minute, 100)
  }

  /** `ListOptions`. */
  datatype ListOptions = ListOptions(jobType: string, statuses: seq<JobStatus>,
                                     limit: int, offset: int, oldestFirst: bool)

  /** The statuses `IsTerminal` accepts are exactly the three final ones. */
  lemma TerminalStatuses(s: JobStatus)
    ensures IsTerminal(s) <==> s in {StatusCompleted, StatusFailed, StatusCancelled}
    ensures !IsTerminal(StatusPending) && !IsTerminal(StatusRunning)
  {
  }

  /** A job that ended no earlier than it started has a non-negative duration, whatever `now` is. */
  lemma DurationOfEndedJob(j: Job, now: int)
    requires j.startedAt.Some? && j.endedAt.Some? && j.startedAt.value <= j.endedAt.value
    ensures 0 <= Duration(j, now) && Duration(j, now) == Duration(j, now + 1)
  {
  }
}
