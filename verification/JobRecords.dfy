/** What the job queue carries and what it records about a job. */
module JobRecords {
  import opened Outcome

  type JobId = string
  type Time = int

  datatype Envelope = Envelope(
    jobId: JobId,
    jobType: string,
    version: int,
    payload: string,
    attempt: int,
    maxAttempts: int,
    correlationId: string,
    companyId: Option<string>,
    createdAt: Time,
    enqueuedBy: string)

  datatype Category = Retryable | Terminal | Unknown

  datatype Failure = Failure(name: string, message: string, category: Category)

  datatype Status = Queued | Running | Completed | Retrying | Failed

  datatype JobRecord = JobRecord(
    envelope: Envelope,
    status: Status,
    updatedAt: Time,
    startedAt: Option<Time>,
    completedAt: Option<Time>,
    lastError: Option<Failure>)

  function QueuedRecord(envelope: Envelope, at: Time): JobRecord {
    JobRecord(envelope, Queued, at, None, None, None)
  }

  function RunningRecord(envelope: Envelope, at: Time): JobRecord {
    JobRecord(envelope, Running, at, Some(at), None, None)
  }

  function CompletedRecord(envelope: Envelope, startedAt: Time, at: Time): JobRecord {
    JobRecord(envelope, Completed, at, Some(startedAt), Some(at), None)
  }

  function RetryingRecord(envelope: Envelope, startedAt: Time, at: Time, failure: Failure): JobRecord {
    JobRecord(envelope, Retrying, at, Some(startedAt), None, Some(failure))
  }

  function FailedRecord(envelope: Envelope, startedAt: Time, at: Time, failure: Failure): JobRecord {
    JobRecord(envelope, Failed, at, Some(startedAt), Some(at), Some(failure))
  }

  predicate IsTerminal(r: JobRecord) {
    r.status == Completed || r.status == Failed
  }

  /** The envelope a promotion builds from a record: the same job, one attempt later. */
  function NextAttempt(r: JobRecord): Envelope {
    r.envelope.(attempt := r.envelope.attempt + 1, enqueuedBy := "retry")
  }
}
