/** The record of one job invocation, and what may happen to it over time. */
module JobRuns {
  import opened Options

  type RunId = nat
  type Time = int

  datatype RunState = Pending | Running | Succeeded | Failed | Cancelled | TimedOut

  datatype JobRun = JobRun(
    id: RunId, jobName: string, createdAt: Time, triggerSource: string,
    state: RunState, startedAt: Option<Time>, finishedAt: Option<Time>,
    errorMessage: Option<string>, errorStackTrace: Option<string>)

  predicate Terminal(state: RunState) {
    state != Pending && state != Running
  }

  /** Fixed fields stay, and no optional field that has been set is cleared. */
  predicate Grows(a: JobRun, b: JobRun) {
    && a.id == b.id && a.jobName == b.jobName && a.createdAt == b.createdAt && a.triggerSource == b.triggerSource
    && (a.startedAt.Some? ==> b.startedAt == a.startedAt)
    && (a.finishedAt.Some? ==> b.finishedAt.Some?)
    && (a.errorMessage.Some? ==> b.errorMessage == a.errorMessage)
    && (a.errorStackTrace.Some? ==> b.errorStackTrace == a.errorStackTrace)
  }

  /** The lifecycle: pending, then possibly running, then one terminal state for good. */
  predicate Follows(a: JobRun, b: JobRun) {
    && Grows(a, b)
    && (a.state == Running ==> Terminal(b.state))
    && (Terminal(a.state) ==> b.state == a.state)
  }

  lemma GrowsIsTransitive(a: JobRun, b: JobRun, c: JobRun)
    requires Grows(a, b) && Grows(b, c)
    ensures Grows(a, c)
  {
  }

  ghost predicate Lifecycle(snapshots: seq<JobRun>) {
    forall i | 0 < i < |snapshots| :: Follows(snapshots[i - 1], snapshots[i])
  }

  /** Later reports of a run keep what its earlier ones set, whatever other runs report in between. */
  ghost predicate AllGrow(reports: seq<JobRun>) {
    forall i, j | 0 <= i < j < |reports| && reports[i].id == reports[j].id :: Grows(reports[i], reports[j])
  }
}
