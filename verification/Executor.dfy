/** Driving one run from pending to its end.

    Both executors follow one procedure; they differ only in whether an error while building the job
    method's arguments is caught. A job body is its outcome: it returns, throws, or throws a
    cancellation. Store calls do not fail. */
module Executor {
  import opened Options
  import opened JobRuns

  datatype Error = Error(message: string, stackTrace: string)

  datatype Body = Returns | Throws(error: Error) | ThrowsCancellation

  /** Everything the procedure meets: what fails, what the body does, whether the job's own timeout had
      expired by the time it failed, and the two clock readings. */
  datatype Scenario = Scenario(
    constructError: Option<Error>, argumentError: Option<Error>, body: Body, timedOut: bool,
    startReading: Time, endReading: Time)

  predicate FailsEarly(catchesArgumentErrors: bool, s: Scenario) {
    s.constructError.Some? || (s.argumentError.Some? && catchesArgumentErrors)
  }

  /** Argument building throws and nothing catches it. */
  predicate Escapes(catchesArgumentErrors: bool, s: Scenario) {
    s.constructError.None? && s.argumentError.Some? && !catchesArgumentErrors
  }

  function EarlyError(s: Scenario): Error
    requires s.constructError.Some? || s.argumentError.Some?
  {
    if s.constructError.Some? then s.constructError.value else s.argumentError.value
  }

  /** The state a run ends in. */
  function Outcome(catchesArgumentErrors: bool, s: Scenario): RunState {
    if FailsEarly(catchesArgumentErrors, s) then Failed
    else if Escapes(catchesArgumentErrors, s) then Pending
    else
      match s.body
      case Returns => Succeeded
      case Throws(_) => Failed
      case ThrowsCancellation => if s.timedOut then TimedOut else Cancelled
  }

  /** The snapshots published for a pending run, in order. */
  function Published(catchesArgumentErrors: bool, run: JobRun, s: Scenario): (snapshots: seq<JobRun>)
    ensures snapshots != []
  {
    if FailsEarly(catchesArgumentErrors, s) then
      var failed := run.(state := Failed, startedAt := Some(s.startReading), finishedAt := Some(s.startReading),
                         errorMessage := Some(EarlyError(s).message),
                         errorStackTrace := Some(EarlyError(s).stackTrace));
      [failed, failed.(finishedAt := Some(s.endReading))]
    else if Escapes(catchesArgumentErrors, s) then
      [run.(finishedAt := Some(s.endReading))]
    else
      var running := run.(state := Running, startedAt := Some(s.startReading));
      var ended := running.(state := Outcome(catchesArgumentErrors, s), finishedAt := Some(s.endReading));
      [running, if s.body.Throws?
                then ended.(errorMessage := Some(s.body.error.message),
                            errorStackTrace := Some(s.body.error.stackTrace))
                else ended]
  }

  /** Reports of one run only ever grow, up to the value stored for it. */
  ghost predicate LeadUpTo(reports: seq<JobRun>, store: map<RunId, JobRun>) {
    && (forall i | 0 <= i < |reports| :: reports[i].id in store && Grows(reports[i], store[reports[i].id]))
    && (forall i, j | 0 <= i < j < |reports| && reports[i].id == reports[j].id :: Grows(reports[i], reports[j]))
  }

  class JobExecutor {
    const catchesArgumentErrors: bool             // true on .NET Framework, false on .NET Core
    var live: map<RunId, bool>                    // runs in flight, and whether cancellation was requested
    var store: map<RunId, JobRun>
    var reports: seq<JobRun>

    /** Every report so far leads up to the stored value of its run. */
    ghost predicate Valid()
      reads this
    {
      LeadUpTo(reports, store)
    }

    constructor (catchesArgumentErrors: bool)
      ensures Valid() && live == map[] && store == map[] && reports == []
      ensures this.catchesArgumentErrors == catchesArgumentErrors
    {
      this.catchesArgumentErrors := catchesArgumentErrors;
      live, store, reports := map[], map[], [];
    }

    method RequestCancel(id: RunId)
      modifies this`live
      ensures live == if id in old(live) then old(live)[id := true] else old(live)
    {
      if id in live {
        live := live[id := true];
      }
    }

    /** Save the run and report a snapshot of it. */
    method Publish(run: JobRun)
      requires Valid() && run.id in store && Grows(store[run.id], run)
      modifies this`store, this`reports
      ensures Valid()
      ensures store == old(store)[run.id := run] && reports == old(reports) + [run]
    {
      store := store[run.id := run];
      reports := reports + [run];
    }

    method CreateAndStoreRun(id: RunId, jobName: string, triggerSource: string, now: Time) returns (run: JobRun)
      requires Valid() && id !in store
      modifies this`store, this`reports
      ensures Valid()
      ensures run == JobRun(id, jobName, now, triggerSource, Pending, None, None, None, None)
      ensures store == old(store)[id := run] && reports == old(reports) + [run]
    {
      run := JobRun(id, jobName, now, triggerSource, Pending, None, None, None, None);
      store := store[id := run];
      reports := reports + [run];
    }

    /** Run the job. Whatever happens, the last block stamps the end, publishes, and drops the live entry. */
    method ContinueRun(started: JobRun, s: Scenario) returns (run: JobRun, threw: bool)
      requires Valid() && started.id in store && store[started.id] == started
      requires started.state == Pending && started.startedAt.None? && started.finishedAt.None?
      requires started.errorMessage.None? && started.errorStackTrace.None?
      modifies this`live, this`store, this`reports
      ensures Valid()
      ensures var snapshots := Published(catchesArgumentErrors, started, s);
              && reports == old(reports) + snapshots
              && run == snapshots[|snapshots| - 1]
              && store == old(store)[started.id := run]
      ensures live == old(live) - {started.id}
      ensures threw <==> s.constructError.None? && s.argumentError.Some? && !catchesArgumentErrors
      ensures s.constructError.None? && s.argumentError.None? ==>
                && (run.state == Succeeded <==> s.body.Returns?)
                && (run.state == Cancelled <==> s.body.ThrowsCancellation? && !s.timedOut)
                && (run.state == TimedOut <==> s.body.ThrowsCancellation? && s.timedOut)
                && (run.state == Failed <==> s.body.Throws?)
                && (s.body.Throws? ==> run.errorMessage == Some(s.body.error.message)
                                       && run.errorStackTrace == Some(s.body.error.stackTrace))
                && run.startedAt == Some(s.startReading)
      ensures run.finishedAt == Some(s.endReading)
    {
      EndMeans(catchesArgumentErrors, started, s);
      live := live[started.id := false];
      run, threw := Attempt(started, s);
      run := run.(finishedAt := Some(s.endReading));
      Publish(run);
      live := live - {run.id};
    }

    /** Everything up to the last block: what is published on the way, and the run as the last block finds it. */
    method Attempt(started: JobRun, s: Scenario) returns (run: JobRun, threw: bool)
      requires Valid() && started.id in store && store[started.id] == started && Fresh(started)
      modifies this`store, this`reports
      ensures Valid() && run.id == started.id && started.id in store && Grows(store[started.id], run)
      ensures var snapshots := Published(catchesArgumentErrors, started, s);
              && reports == old(reports) + snapshots[..|snapshots| - 1]
              && run.(finishedAt := Some(s.endReading)) == snapshots[|snapshots| - 1]
              && store == (if |snapshots| == 1 then old(store) else old(store)[started.id := snapshots[0]])
      ensures threw <==> s.constructError.None? && s.argumentError.Some? && !catchesArgumentErrors
    {
      run := started;
      threw := false;

      if s.constructError.Some? {
        run := FailEarly(run, s.constructError.value, s.startReading);
        Publish(run);
      } else if s.argumentError.Some? && catchesArgumentErrors {
        run := FailEarly(run, s.argumentError.value, s.startReading);
        Publish(run);
      } else if s.argumentError.Some? {
        threw := true;
      } else {
        run := run.(startedAt := Some(s.startReading), state := Running);
        Publish(run);
        match s.body {
          case Returns => run := run.(state := Succeeded);
          case _ => run := AssignFailure(run, s.body, s.timedOut);
        }
      }
    }

    static function FailEarly(run: JobRun, e: Error, now: Time): JobRun {
      run.(state := Failed, errorMessage := Some(e.message), errorStackTrace := Some(e.stackTrace),
           startedAt := Some(now), finishedAt := Some(now))
    }

    static function AssignFailure(run: JobRun, body: Body, timedOut: bool): JobRun
      requires !body.Returns?
    {
      match body
      case ThrowsCancellation => run.(state := if timedOut then TimedOut else Cancelled)
      case Throws(e) => run.(state := Failed, errorMessage := Some(e.message), errorStackTrace := Some(e.stackTrace))
    }
  }

  ghost predicate Fresh(run: JobRun) {
    && run.state == Pending && run.startedAt.None? && run.finishedAt.None?
    && run.errorMessage.None? && run.errorStackTrace.None?
  }

  /** Every published history is a legal lifecycle that ends stamped. The run ends in a terminal state,
      started no later than it finished, exactly when no argument error escapes. */
  lemma PublishedIsLifecycle(catchesArgumentErrors: bool, run: JobRun, s: Scenario)
    requires Fresh(run) && s.startReading <= s.endReading
    ensures var snapshots := Published(catchesArgumentErrors, run, s);
            var last := snapshots[|snapshots| - 1];
            && Lifecycle([run] + snapshots)
            && last.finishedAt.Some?
            && (Terminal(last.state) <==> !Escapes(catchesArgumentErrors, s))
            && (Terminal(last.state) <==> last.startedAt.Some? && last.startedAt.value <= last.finishedAt.value)
            && (last.state == Failed <==> last.errorMessage.Some?)
            && last.state == Outcome(catchesArgumentErrors, s)
  {
    var snapshots := Published(catchesArgumentErrors, run, s);
    var all := [run] + snapshots;
    forall i | 0 < i < |all|
      ensures Follows(all[i - 1], all[i])
    {
    }
  }

  /** The executor that catches argument errors always reaches a terminal state; the other one leaves a
      run pending, yet stamped as finished, exactly when the target is built and its arguments are not. */
  lemma EndsTerminalIff(run: JobRun, s: Scenario)
    requires Fresh(run) && s.startReading <= s.endReading
    ensures var f := Published(true, run, s); Terminal(f[|f| - 1].state)
    ensures var c := Published(false, run, s);
            && (Terminal(c[|c| - 1].state) <==> s.constructError.Some? || s.argumentError.None?)
            && (!Terminal(c[|c| - 1].state) ==> c == [run.(finishedAt := Some(s.endReading))])
            && (Terminal(c[|c| - 1].state) ==> c == Published(true, run, s))
  {
    PublishedIsLifecycle(true, run, s);
    PublishedIsLifecycle(false, run, s);
  }

  /** How a run ends, case by case: what fails first decides; a body that returns succeeds, one that throws
      fails with its error, one that throws a cancellation is timed out if its timeout had passed and
      cancelled if not. */
  lemma EndMeans(catches: bool, run: JobRun, s: Scenario)
    requires Fresh(run)
    ensures var snapshots := Published(catches, run, s);
            var last := snapshots[|snapshots| - 1];
            && last.id == run.id && last.jobName == run.jobName && last.createdAt == run.createdAt
            && last.triggerSource == run.triggerSource && last.finishedAt == Some(s.endReading)
            && (s.constructError.Some? ==> FailedWith(snapshots, s.constructError.value, s))
            && (s.constructError.None? && s.argumentError.Some? && catches ==>
                  FailedWith(snapshots, s.argumentError.value, s))
            && (s.constructError.None? && s.argumentError.Some? && !catches ==>
                  |snapshots| == 1 && last.state == Pending && last.startedAt == None
                  && last.errorMessage == None && last.errorStackTrace == None)
            && (s.constructError.None? && s.argumentError.None? ==>
                  && |snapshots| == 2 && snapshots[0].state == Running && snapshots[0].finishedAt == None
                  && snapshots[0].startedAt == last.startedAt == Some(s.startReading)
                  && (last.state == Succeeded <==> s.body.Returns?)
                  && (last.state == Cancelled <==> s.body.ThrowsCancellation? && !s.timedOut)
                  && (last.state == TimedOut <==> s.body.ThrowsCancellation? && s.timedOut)
                  && (last.state == Failed <==> s.body.Throws?)
                  && last.errorMessage == (if s.body.Throws? then Some(s.body.error.message) else None)
                  && last.errorStackTrace == (if s.body.Throws? then Some(s.body.error.stackTrace) else None))
  {
  }

  /** Failed before it ran: reported at once, stamped twice, with the error that was thrown. */
  predicate FailedWith(snapshots: seq<JobRun>, e: Error, s: Scenario) {
    && |snapshots| == 2
    && (forall i | 0 <= i < 2 ::
          && snapshots[i].state == Failed && snapshots[i].startedAt == Some(s.startReading)
          && snapshots[i].errorMessage == Some(e.message) && snapshots[i].errorStackTrace == Some(e.stackTrace))
    && snapshots[0].finishedAt == Some(s.startReading) && snapshots[1].finishedAt == Some(s.endReading)
  }

  // ---- any number of runs at once ----

  /** Where one execution is. `Created`: stored, nobody has taken it up. `Constructing`, `Building`: about to
      make the target, the arguments. `Invoked`: the body is running. `Ending`: on the way to the last
      block, normally or with an error. `Stamped`: its last snapshot is out. `Left`: off the live table. */
  datatype Point = Created | Constructing | Building | Invoked | Ending | Stamped | Left

  /** The run as it was created, as it is now, and what the execution has met so far. */
  datatype Execution = Execution(first: JobRun, run: JobRun, at: Point, met: Scenario)

  datatype Host = Host(
    clock: Time, stopping: bool, executions: map<RunId, Execution>, live: map<RunId, bool>, store: map<RunId, JobRun>,
    reports: seq<JobRun>)

  /** What an execution is told at its next step. */
  datatype Answer
    = Constructed(error: Option<Error>) | Built(error: Option<Error>) | BodyEnded(body: Body, timedOut: bool) | Go

  datatype Event =
    | Elapse(duration: nat)
    | Create(id: RunId, jobName: string, triggerSource: string)
    | Advance(id: RunId, answer: Answer)
    | Cancel(id: RunId)
    | StopHost

  /** The next step of one execution, and the snapshot it publishes, if any. An answer that does not fit
      changes nothing. */
  function Advanced(catches: bool, x: Execution, answer: Answer, clock: Time): (Execution, Option<JobRun>) {
    match (x.at, answer)
    case (Created, Go) => (x.(at := Constructing), None)
    case (Constructing, Constructed(None)) => (x.(at := Building), None)
    case (Constructing, Constructed(Some(e))) =>
      var run := JobExecutor.FailEarly(x.run, e, clock);
      (Execution(x.first, run, Ending, x.met.(constructError := Some(e), startReading := clock)), Some(run))
    case (Building, Built(None)) =>
      var run := x.run.(startedAt := Some(clock), state := Running);
      (Execution(x.first, run, Invoked, x.met.(startReading := clock)), Some(run))
    case (Building, Built(Some(e))) =>
      if catches then
        var run := JobExecutor.FailEarly(x.run, e, clock);
        (Execution(x.first, run, Ending, x.met.(argumentError := Some(e), startReading := clock)), Some(run))
      else
        (x.(at := Ending, met := x.met.(argumentError := Some(e), startReading := clock)), None)
    case (Invoked, BodyEnded(body, timedOut)) =>
      var run := if body.Returns? then x.run.(state := Succeeded) else JobExecutor.AssignFailure(x.run, body, timedOut);
      (Execution(x.first, run, Ending, x.met.(body := body, timedOut := timedOut)), None)
    case (Ending, Go) =>
      var run := x.run.(finishedAt := Some(clock));
      (Execution(x.first, run, Stamped, x.met.(endReading := clock)), Some(run))
    case (Stamped, Go) => (x.(at := Left), None)
    case _ => (x, None)
  }

  predicate InFlight(at: Point) {
    at != Created && at != Left
  }

  const NOTHING_MET := Scenario(None, None, Returns, false, 0, 0)

  /** The live table follows the executions: entered when taken up, left at the very end. */
  function LiveAfter(live: map<RunId, bool>, id: RunId, before: Point, after: Point): map<RunId, bool> {
    if before == Created && after == Constructing then live[id := false]
    else if after == Left then live - {id}
    else live
  }

  function Appended(reports: seq<JobRun>, out: Option<JobRun>): seq<JobRun> {
    if out.Some? then reports + [out.value] else reports
  }

  function AfterAdvance(catches: bool, h: Host, id: RunId, answer: Answer): Host
    requires id in h.executions
  {
    var x := h.executions[id];
    var (y, out) := Advanced(catches, x, answer, h.clock);
    Host(h.clock, h.stopping, h.executions[id := y], LiveAfter(h.live, id, x.at, y.at),
         if out.Some? then h.store[id := out.value] else h.store, Appended(h.reports, out))
  }

  function NewRun(h: Host, id: RunId, jobName: string, triggerSource: string): JobRun {
    JobRun(id, jobName, h.clock, triggerSource, Pending, None, None, None, None)
  }

  function AfterCreation(h: Host, run: JobRun): Host {
    Host(h.clock, h.stopping, h.executions[run.id := Execution(run, run, Created, NOTHING_MET)], h.live,
         h.store[run.id := run], h.reports + [run])
  }

  function Step(catches: bool, h: Host, e: Event): Host {
    match e
    case Elapse(d) => h.(clock := h.clock + d)
    case Create(id, jobName, triggerSource) =>
      if id in h.executions then h
      else AfterCreation(h, NewRun(h, id, jobName, triggerSource))
    case Advance(id, answer) => if id in h.executions then AfterAdvance(catches, h, id, answer) else h
    case Cancel(id) => if id in h.live then h.(live := h.live[id := true]) else h
    case StopHost => h.(stopping := true)
  }

  const IDLE := Host(0, false, map[], map[], map[], [])

  function Run(catches: bool, events: seq<Event>): Host {
    if events == [] then IDLE else Step(catches, Run(catches, events[..|events| - 1]), events[|events| - 1])
  }

  /** The reports of one run, in order. */
  function ReportsOf(reports: seq<JobRun>, id: RunId): seq<JobRun> {
    if reports == [] then []
    else
      var (before, last) := (reports[..|reports| - 1], reports[|reports| - 1]);
      ReportsOf(before, id) + if last.id == id then [last] else []
  }

  // ---- what one execution keeps ----

  /** Between steps: what is out so far, and how the run differs from what is out. */
  ghost predicate OnCourse(catches: bool, x: Execution, out: seq<JobRun>) {
    && Fresh(x.first)
    && match x.at
       case Created => x.run == x.first && out == [x.first] && x.met == NOTHING_MET
       case Constructing => x.run == x.first && out == [x.first] && x.met == NOTHING_MET
       case Building => x.run == x.first && out == [x.first] && x.met == NOTHING_MET
       case Invoked => out == [x.first, x.run] && x.run == Started(x) && Unharmed(x.met)
       case Ending =>
         if FailsEarly(catches, x.met) then out == [x.first, x.run] && x.run == FailedEarly(x)
         else if Escapes(catches, x.met) then out == [x.first] && x.run == x.first
         else out == [x.first, Started(x)] && x.run == BodyOver(catches, x) && Unharmed(x.met)
       case Stamped => out == [x.first] + Published(catches, x.first, x.met) && x.run == out[|out| - 1]
       case Left => out == [x.first] + Published(catches, x.first, x.met) && x.run == out[|out| - 1]
  }

  predicate Unharmed(met: Scenario) {
    met.constructError.None? && met.argumentError.None?
  }

  function Started(x: Execution): JobRun {
    x.first.(state := Running, startedAt := Some(x.met.startReading))
  }

  function FailedEarly(x: Execution): JobRun
    requires x.met.constructError.Some? || x.met.argumentError.Some?
  {
    JobExecutor.FailEarly(x.first, EarlyError(x.met), x.met.startReading)
  }

  function BodyOver(catches: bool, x: Execution): JobRun {
    var ended := Started(x).(state := Outcome(catches, x.met));
    if x.met.body.Throws?
    then ended.(errorMessage := Some(x.met.body.error.message), errorStackTrace := Some(x.met.body.error.stackTrace))
    else ended
  }

  lemma AdvanceKeepsCourse(catches: bool, x: Execution, out: seq<JobRun>, answer: Answer, clock: Time)
    requires OnCourse(catches, x, out)
    ensures var (y, r) := Advanced(catches, x, answer, clock);
            && y.first == x.first && OnCourse(catches, y, if r.Some? then out + [r.value] else out)
  {
    if x.at == Ending && answer == Go {
      StampCompletes(catches, x, out, clock);
    }
  }

  /** The last block publishes what is missing from `Published`. */
  lemma StampCompletes(catches: bool, x: Execution, out: seq<JobRun>, clock: Time)
    requires OnCourse(catches, x, out) && x.at == Ending
    ensures out + [x.run.(finishedAt := Some(clock))]
            == [x.first] + Published(catches, x.first, x.met.(endReading := clock))
  {
  }

  /** The readings an execution took are in order. */
  ghost predicate Timed(x: Execution, clock: Time) {
    && (x.at in {Invoked, Ending, Stamped, Left} ==> x.met.startReading <= clock)
    && (x.at in {Stamped, Left} ==> x.met.startReading <= x.met.endReading)
  }

  /** What is out is a legal lifecycle; after the stamp it ends as the scenario it met says. */
  lemma CourseIsLifecycle(catches: bool, x: Execution, out: seq<JobRun>, clock: Time)
    requires OnCourse(catches, x, out) && Timed(x, clock)
    ensures out != [] && out[0] == x.first && Lifecycle(out) && forall i | 0 <= i < |out| :: out[i].id == x.first.id
    ensures x.at in {Stamped, Left} ==> EndsAs(catches, x.met, out[|out| - 1])
  {
    if x.at in {Stamped, Left} {
      PublishedIsLifecycle(catches, x.first, x.met);
    }
  }

  /** A stamped run: terminal unless an argument error escaped, and then never started. */
  ghost predicate EndsAs(catches: bool, met: Scenario, last: JobRun) {
    && last.state == Outcome(catches, met) && last.finishedAt.Some?
    && (Terminal(last.state) <==> !Escapes(catches, met))
    && (Terminal(last.state) <==> last.startedAt.Some? && last.startedAt.value <= last.finishedAt.value)
    && (last.state == Failed <==> last.errorMessage.Some?)
  }

  // ---- what the host keeps ----

  ghost predicate OnCourses(catches: bool, executions: map<RunId, Execution>, reports: seq<JobRun>) {
    && (forall id | id in executions :: CourseOf(catches, executions[id], reports, id))
    && (forall i | 0 <= i < |reports| :: reports[i].id in executions)
  }

  ghost predicate CourseOf(catches: bool, x: Execution, reports: seq<JobRun>, id: RunId) {
    x.first.id == id && OnCourse(catches, x, ReportsOf(reports, id))
  }

  ghost predicate LiveMatches(executions: map<RunId, Execution>, live: map<RunId, bool>) {
    && (forall id | id in executions :: id in live <==> InFlight(executions[id].at))
    && (forall id | id in live :: id in executions)
  }

  ghost predicate AllTimed(executions: map<RunId, Execution>, clock: Time) {
    forall id | id in executions :: Timed(executions[id], clock)
  }

  /** A run is stored once it has a snapshot, and then its newest one is. */
  ghost predicate StoreOf(store: map<RunId, JobRun>, mine: seq<JobRun>, id: RunId) {
    && (id in store <==> mine != [])
    && (id in store ==> store[id] == mine[|mine| - 1])
  }

  ghost predicate StoreMatches(store: map<RunId, JobRun>, reports: seq<JobRun>) {
    forall id :: StoreOf(store, ReportsOf(reports, id), id)
  }

  ghost predicate TablesMatch(h: Host) {
    LiveMatches(h.executions, h.live) && AllTimed(h.executions, h.clock) && StoreMatches(h.store, h.reports)
  }

  lemma ReportOneMore(reports: seq<JobRun>, r: JobRun, id: RunId)
    ensures ReportsOf(reports + [r], id) == ReportsOf(reports, id) + if r.id == id then [r] else []
  {
    assert (reports + [r])[..|reports|] == reports;
  }

  lemma {:induction false} NoReports(reports: seq<JobRun>, id: RunId)
    requires forall i | 0 <= i < |reports| :: reports[i].id != id
    ensures ReportsOf(reports, id) == []
  {
    if reports != [] {
      NoReports(reports[..|reports| - 1], id);
    }
  }

  lemma AppendedOf(reports: seq<JobRun>, out: Option<JobRun>, id: RunId)
    ensures ReportsOf(Appended(reports, out), id)
            == if out.Some? && out.value.id == id then ReportsOf(reports, id) + [out.value] else ReportsOf(reports, id)
  {
    if out.Some? {
      ReportOneMore(reports, out.value, id);
    }
  }

  /** One execution goes on, with or without a snapshot of its run. */
  lemma CoursesGoOn(catches: bool, executions: map<RunId, Execution>, reports: seq<JobRun>, id: RunId, y: Execution,
                    out: Option<JobRun>)
    requires OnCourses(catches, executions, reports)
    requires (out.Some? ==> out.value.id == id) && (out.None? ==> id in executions)
    requires CourseOf(catches, y, Appended(reports, out), id)
    ensures OnCourses(catches, executions[id := y], Appended(reports, out))
  {
    forall other | other in executions && other != id
      ensures CourseOf(catches, executions[other], Appended(reports, out), other)
    {
      AppendedOf(reports, out, other);
    }
  }

  lemma StoreGoesOn(store: map<RunId, JobRun>, reports: seq<JobRun>, r: JobRun)
    requires StoreMatches(store, reports)
    ensures StoreMatches(store[r.id := r], reports + [r])
  {
    forall id
      ensures StoreOf(store[r.id := r], ReportsOf(reports + [r], id), id)
    {
      ReportOneMore(reports, r, id);
      assert StoreOf(store, ReportsOf(reports, id), id);
    }
  }

  lemma AdvanceKeepsTimes(catches: bool, x: Execution, answer: Answer, clock: Time)
    requires Timed(x, clock)
    ensures Timed(Advanced(catches, x, answer, clock).0, clock)
  {
  }

  lemma AdvanceKeepsLive(catches: bool, executions: map<RunId, Execution>, live: map<RunId, bool>, id: RunId,
                         answer: Answer, clock: Time)
    requires LiveMatches(executions, live) && id in executions
    ensures var y := Advanced(catches, executions[id], answer, clock).0;
            LiveMatches(executions[id := y], LiveAfter(live, id, executions[id].at, y.at))
  {
  }

  lemma AdvanceKeepsCourses(catches: bool, executions: map<RunId, Execution>, reports: seq<JobRun>, id: RunId,
                            answer: Answer, clock: Time)
    requires OnCourses(catches, executions, reports) && id in executions
    ensures var (y, out) := Advanced(catches, executions[id], answer, clock);
            && OnCourses(catches, executions[id := y], Appended(reports, out))
            && (out.Some? ==> out.value.id == id)
  {
    var x, mine := executions[id], ReportsOf(reports, id);
    var (y, out) := Advanced(catches, x, answer, clock);
    assert CourseOf(catches, x, reports, id);
    AdvanceKeepsCourse(catches, x, mine, answer, clock);
    SnapshotIsOfItsRun(catches, x, mine, answer, clock);
    AppendedOf(reports, out, id);
    CoursesGoOn(catches, executions, reports, id, y, out);
  }

  lemma AdvanceKeepsTables(catches: bool, h: Host, id: RunId, answer: Answer)
    requires TablesMatch(h) && id in h.executions
    requires var out := Advanced(catches, h.executions[id], answer, h.clock).1; out.Some? ==> out.value.id == id
    ensures TablesMatch(AfterAdvance(catches, h, id, answer))
  {
    var x := h.executions[id];
    var out := Advanced(catches, x, answer, h.clock).1;
    AdvanceKeepsTimes(catches, x, answer, h.clock);
    AdvanceKeepsLive(catches, h.executions, h.live, id, answer, h.clock);
    if out.Some? {
      StoreGoesOn(h.store, h.reports, out.value);
    }
  }

  lemma SnapshotIsOfItsRun(catches: bool, x: Execution, mine: seq<JobRun>, answer: Answer, clock: Time)
    requires OnCourse(catches, x, mine)
    ensures x.run.id == x.first.id
    ensures var out := Advanced(catches, x, answer, clock).1; out.Some? ==> out.value.id == x.first.id
  {
  }

  lemma CreationKeepsCourses(catches: bool, executions: map<RunId, Execution>, reports: seq<JobRun>, run: JobRun)
    requires OnCourses(catches, executions, reports) && run.id !in executions && Fresh(run)
    ensures OnCourses(catches, executions[run.id := Execution(run, run, Created, NOTHING_MET)], reports + [run])
  {
    NoReports(reports, run.id);
    AppendedOf(reports, Some(run), run.id);
    assert [] + [run] == [run];
    CoursesGoOn(catches, executions, reports, run.id, Execution(run, run, Created, NOTHING_MET), Some(run));
  }

  lemma CreationKeepsTables(h: Host, run: JobRun)
    requires TablesMatch(h) && run.id !in h.executions
    ensures TablesMatch(AfterCreation(h, run))
  {
    StoreGoesOn(h.store, h.reports, run);
  }

  lemma StepKeepsCourses(catches: bool, h: Host, e: Event)
    requires OnCourses(catches, h.executions, h.reports)
    ensures var g := Step(catches, h, e); OnCourses(catches, g.executions, g.reports)
  {
    match e {
      case Create(id, jobName, source) =>
        if id !in h.executions {
          CreationKeepsCourses(catches, h.executions, h.reports, NewRun(h, id, jobName, source));
        }
      case Advance(id, answer) =>
        if id in h.executions {
          AdvanceKeepsCourses(catches, h.executions, h.reports, id, answer, h.clock);
        }
      case _ =>
    }
  }

  lemma StepKeepsTables(catches: bool, h: Host, e: Event)
    requires OnCourses(catches, h.executions, h.reports) && TablesMatch(h)
    ensures TablesMatch(Step(catches, h, e))
  {
    match e {
      case Create(id, jobName, source) =>
        if id !in h.executions {
          CreationKeepsTables(h, NewRun(h, id, jobName, source));
        }
      case Advance(id, answer) =>
        if id in h.executions {
          assert CourseOf(catches, h.executions[id], h.reports, id);
          SnapshotIsOfItsRun(catches, h.executions[id], ReportsOf(h.reports, id), answer, h.clock);
          AdvanceKeepsTables(catches, h, id, answer);
        }
      case _ =>
    }
  }

  lemma {:induction false} RunKeepsHost(catches: bool, events: seq<Event>)
    ensures var h := Run(catches, events); OnCourses(catches, h.executions, h.reports) && TablesMatch(h)
  {
    if events != [] {
      RunKeepsHost(catches, events[..|events| - 1]);
      StepKeepsCourses(catches, Run(catches, events[..|events| - 1]), events[|events| - 1]);
      StepKeepsTables(catches, Run(catches, events[..|events| - 1]), events[|events| - 1]);
    }
  }

  // ---- what follows for every run of the host ----

  /** However executions, failures, delays and cancellations interleave: the reports of a run are a legal
      lifecycle from pending on and its stored value is the newest of them; it is live exactly between being
      taken up and its last act; and once stamped it has published exactly what `ContinueRun` publishes in
      the scenario it met, so it is terminal unless an argument error escaped. */
  lemma EveryRunKeepsItsLifecycle(catches: bool, events: seq<Event>, id: RunId)
    requires id in Run(catches, events).executions
    ensures var h := Run(catches, events);
            var x := h.executions[id];
            var mine := ReportsOf(h.reports, id);
            && mine != [] && mine[0] == x.first && Fresh(x.first) && Lifecycle(mine)
            && id in h.store && h.store[id] == mine[|mine| - 1]
            && (id in h.live <==> InFlight(x.at))
            && (x.at in {Stamped, Left} ==>
                  mine == [x.first] + Published(catches, x.first, x.met) && EndsAs(catches, x.met, mine[|mine| - 1]))
  {
    RunKeepsHost(catches, events);
    var h := Run(catches, events);
    var x := h.executions[id];
    assert CourseOf(catches, x, h.reports, id) && Timed(x, h.clock);
    assert StoreOf(h.store, ReportsOf(h.reports, id), id);
    CourseIsLifecycle(catches, x, ReportsOf(h.reports, id), h.clock);
  }

  lemma ReportedRunsExist(catches: bool, events: seq<Event>, i: nat)
    requires i < |Run(catches, events).reports|
    ensures Run(catches, events).reports[i].id in Run(catches, events).executions
  {
    RunKeepsHost(catches, events);
  }

  // ---- what an execution met is what it was told ----

  ghost predicate ToldAt(catches: bool, events: seq<Event>, id: RunId, at: Point, answer: Answer, i: int) {
    && 0 <= i < |events| && events[i] == Advance(id, answer)
    && var h := Run(catches, events[..i]); id in h.executions && h.executions[id].at == at
  }

  /** The execution was given that answer when it stood at that point. */
  ghost predicate Told(catches: bool, events: seq<Event>, id: RunId, at: Point, answer: Answer) {
    exists i :: ToldAt(catches, events, id, at, answer, i)
  }

  lemma ToldStays(catches: bool, events: seq<Event>, id: RunId, at: Point, answer: Answer)
    requires events != [] && Told(catches, events[..|events| - 1], id, at, answer)
    ensures Told(catches, events, id, at, answer)
  {
    var before := events[..|events| - 1];
    var i :| ToldAt(catches, before, id, at, answer, i);
    assert before[..i] == events[..i];
    assert ToldAt(catches, events, id, at, answer, i);
  }

  ghost predicate CreatedAt(catches: bool, events: seq<Event>, run: JobRun, i: int) {
    && 0 <= i < |events| && events[i] == Create(run.id, run.jobName, run.triggerSource)
    && run.createdAt == Run(catches, events[..i]).clock
  }

  /** An execution's run is the one that was asked for, created when it was. */
  lemma {:induction false} CreatedAsAsked(catches: bool, events: seq<Event>, id: RunId)
    requires id in Run(catches, events).executions
    ensures Run(catches, events).executions[id].first.id == id
    ensures exists i :: CreatedAt(catches, events, Run(catches, events).executions[id].first, i)
  {
    var n := |events| - 1;
    var h, run := Run(catches, events[..n]), Run(catches, events).executions[id].first;
    if id in h.executions {
      FirstStays(catches, h, events[n], id);
      CreatedAsAsked(catches, events[..n], id);
      var i :| CreatedAt(catches, events[..n], run, i);
      assert events[..n][..i] == events[..i];
      assert CreatedAt(catches, events, run, i);
    } else {
      assert CreatedAt(catches, events, run, n);
    }
  }

  lemma FirstStays(catches: bool, h: Host, e: Event, id: RunId)
    requires id in h.executions
    ensures id in Step(catches, h, e).executions && Step(catches, h, e).executions[id].first == h.executions[id].first
  {
  }

  /** How an execution comes to its last block, and that what it met stays as it was then. */
  lemma EndingStep(catches: bool, x: Execution, answer: Answer, clock: Time)
    requires Advanced(catches, x, answer, clock).0.at in {Ending, Stamped, Left}
    requires x.at in {Created, Constructing, Building} ==> x.met == NOTHING_MET
    requires x.at == Invoked ==> Unharmed(x.met)
    ensures var y := Advanced(catches, x, answer, clock).0;
            if x.at in {Ending, Stamped, Left} then y.met.(endReading := 0) == x.met.(endReading := 0)
            else if y.met.constructError.Some? then x.at == Constructing && answer == Constructed(y.met.constructError)
            else if y.met.argumentError.Some? then x.at == Building && answer == Built(y.met.argumentError)
            else x.at == Invoked && answer == BodyEnded(y.met.body, y.met.timedOut)
  {
  }

  /** What a past answer must have been for what an execution met. */
  ghost predicate MetIsTold(catches: bool, events: seq<Event>, id: RunId, met: Scenario) {
    if met.constructError.Some? then Told(catches, events, id, Constructing, Constructed(met.constructError))
    else if met.argumentError.Some? then Told(catches, events, id, Building, Built(met.argumentError))
    else Told(catches, events, id, Invoked, BodyEnded(met.body, met.timedOut))
  }

  lemma MetStaysTold(catches: bool, events: seq<Event>, id: RunId, met: Scenario, later: Scenario)
    requires events != [] && MetIsTold(catches, events[..|events| - 1], id, met)
    requires later.(endReading := 0) == met.(endReading := 0)
    ensures MetIsTold(catches, events, id, later)
  {
    if met.constructError.Some? {
      ToldStays(catches, events, id, Constructing, Constructed(met.constructError));
    } else if met.argumentError.Some? {
      ToldStays(catches, events, id, Building, Built(met.argumentError));
    } else {
      ToldStays(catches, events, id, Invoked, BodyEnded(met.body, met.timedOut));
    }
  }

  lemma OtherEventsLeaveIt(catches: bool, h: Host, e: Event, id: RunId)
    requires !(e.Advance? && e.id == id) && id in Step(catches, h, e).executions
    ensures if id in h.executions then Step(catches, h, e).executions[id] == h.executions[id]
            else Step(catches, h, e).executions[id].at == Created
  {
  }

  /** One event before: the execution was in its last block already, or was just told. */
  lemma LastBlockStep(catches: bool, h: Host, e: Event, id: RunId)
    requires OnCourses(catches, h.executions, h.reports)
    requires id in Step(catches, h, e).executions && Step(catches, h, e).executions[id].at in {Ending, Stamped, Left}
    ensures id in h.executions
    ensures var x, y := h.executions[id], Step(catches, h, e).executions[id];
            if x.at in {Ending, Stamped, Left} then y.met.(endReading := 0) == x.met.(endReading := 0)
            else
              && e.Advance? && e.id == id
              && (if y.met.constructError.Some?
                  then x.at == Constructing && e.answer == Constructed(y.met.constructError)
                  else if y.met.argumentError.Some? then x.at == Building && e.answer == Built(y.met.argumentError)
                  else x.at == Invoked && e.answer == BodyEnded(y.met.body, y.met.timedOut))
  {
    if e.Advance? && e.id == id {
      assert CourseOf(catches, h.executions[id], h.reports, id);
      EndingStep(catches, h.executions[id], e.answer, h.clock);
    } else {
      OtherEventsLeaveIt(catches, h, e, id);
    }
  }

  lemma {:induction false} MetWasTold(catches: bool, events: seq<Event>, id: RunId)
    requires id in Run(catches, events).executions
    requires Run(catches, events).executions[id].at in {Ending, Stamped, Left}
    ensures MetIsTold(catches, events, id, Run(catches, events).executions[id].met)
  {
    var n := |events| - 1;
    var h, e := Run(catches, events[..n]), events[n];
    RunKeepsHost(catches, events[..n]);
    LastBlockStep(catches, h, e, id);
    var x := h.executions[id];
    if x.at in {Ending, Stamped, Left} {
      MetWasTold(catches, events[..n], id);
      MetStaysTold(catches, events, id, x.met, Run(catches, events).executions[id].met);
    } else {
      assert ToldAt(catches, events, id, x.at, e.answer, n);
    }
  }

  /** However steps interleave, a stamped run that was neither kept from running nor left for an argument error
      ends by what its body was told to have done: succeeded if it returned, failed with its error if it threw
      one, timed out or cancelled if it threw a cancellation after or before its timeout. */
  lemma StampedEndsByItsBody(catches: bool, events: seq<Event>, id: RunId) returns (body: Body, timedOut: bool)
    requires id in Run(catches, events).executions && Run(catches, events).executions[id].at in {Stamped, Left}
    requires var met := Run(catches, events).executions[id].met; met.constructError.None? && met.argumentError.None?
    ensures Told(catches, events, id, Invoked, BodyEnded(body, timedOut))
    ensures var mine := ReportsOf(Run(catches, events).reports, id);
            && mine != []
            && var last := mine[|mine| - 1];
               && (last.state == Succeeded <==> body.Returns?)
               && (last.state == Cancelled <==> body.ThrowsCancellation? && !timedOut)
               && (last.state == TimedOut <==> body.ThrowsCancellation? && timedOut)
               && (last.state == Failed <==> body.Throws?)
               && last.errorMessage == (if body.Throws? then Some(body.error.message) else None)
               && last.errorStackTrace == (if body.Throws? then Some(body.error.stackTrace) else None)
  {
    var x := Run(catches, events).executions[id];
    body, timedOut := x.met.body, x.met.timedOut;
    MetWasTold(catches, events, id);
    EveryRunKeepsItsLifecycle(catches, events, id);
    EndMeans(catches, x.first, x.met);
  }

  /** And one that was kept from running ends failed with the error it was told of, or, where argument errors
      are not caught, pending. */
  lemma StampedEndsByItsError(catches: bool, events: seq<Event>, id: RunId) returns (e: Error)
    requires id in Run(catches, events).executions && Run(catches, events).executions[id].at in {Stamped, Left}
    requires var met := Run(catches, events).executions[id].met; met.constructError.Some? || met.argumentError.Some?
    ensures Told(catches, events, id, Constructing, Constructed(Some(e)))
            || Told(catches, events, id, Building, Built(Some(e)))
    ensures var mine := ReportsOf(Run(catches, events).reports, id);
            && mine != []
            && var last := mine[|mine| - 1];
               if catches || Run(catches, events).executions[id].met.constructError.Some?
               then last.state == Failed && last.errorMessage == Some(e.message)
                    && last.errorStackTrace == Some(e.stackTrace)
               else last.state == Pending && last.startedAt == None && last.errorMessage == None
  {
    var x := Run(catches, events).executions[id];
    e := if x.met.constructError.Some? then x.met.constructError.value else x.met.argumentError.value;
    MetWasTold(catches, events, id);
    EveryRunKeepsItsLifecycle(catches, events, id);
    EndMeans(catches, x.first, x.met);
  }

  /** In a lifecycle later snapshots keep every field set before, and a terminal state is for good. */
  lemma {:induction false} LifecycleGrows(snapshots: seq<JobRun>, i: nat, j: nat)
    requires Lifecycle(snapshots) && i < j < |snapshots|
    ensures Grows(snapshots[i], snapshots[j])
    ensures Terminal(snapshots[i].state) ==> snapshots[j].state == snapshots[i].state
  {
    assert Follows(snapshots[j - 1], snapshots[j]);
    if i < j - 1 {
      LifecycleGrows(snapshots, i, j - 1);
      GrowsIsTransitive(snapshots[i], snapshots[j - 1], snapshots[j]);
    }
  }

  /** A report's place among the reports of its run. */
  lemma {:induction false} PlaceOf(reports: seq<JobRun>, i: nat)
    requires i < |reports|
    ensures var mine, p := ReportsOf(reports, reports[i].id), |ReportsOf(reports[..i], reports[i].id)|;
            p < |mine| && mine[p] == reports[i]
  {
    var n := |reports| - 1;
    if i < n {
      PlaceOf(reports[..n], i);
      assert reports[..n][..i] == reports[..i];
    }
  }

  lemma {:induction false} PlacesAdvance(reports: seq<JobRun>, i: nat, j: nat)
    requires i < j <= |reports|
    ensures |ReportsOf(reports[..i], reports[i].id)| < |ReportsOf(reports[..j], reports[i].id)|
  {
    assert reports[..j][..j - 1] == reports[..j - 1];
    if i < j - 1 {
      PlacesAdvance(reports, i, j - 1);
    }
  }

  /** The reports of all runs together only ever grow, which is what the dashboard relies on, and no run
      leaves a terminal state. */
  lemma InterleavedReportsGrow(catches: bool, events: seq<Event>, i: nat, j: nat)
    requires var reports := Run(catches, events).reports; i < j < |reports| && reports[i].id == reports[j].id
    ensures var reports := Run(catches, events).reports;
            && Grows(reports[i], reports[j])
            && (Terminal(reports[i].state) ==> reports[j].state == reports[i].state)
  {
    var h := Run(catches, events);
    var id := h.reports[i].id;
    RunKeepsHost(catches, events);
    assert h.reports[i].id in h.executions;
    EveryRunKeepsItsLifecycle(catches, events, id);
    PlaceOf(h.reports, i);
    PlaceOf(h.reports, j);
    PlacesAdvance(h.reports, i, j);
    LifecycleGrows(ReportsOf(h.reports, id), |ReportsOf(h.reports[..i], id)|, |ReportsOf(h.reports[..j], id)|);
  }

  // ---- one execution undisturbed ----

  /** From one host to the next, one execution moved to a new point and published `out`. */
  ghost predicate Moved(h: Host, g: Host, id: RunId, y: Execution, live: map<RunId, bool>, out: seq<JobRun>)
  {
    && g.stopping == h.stopping && g.executions == h.executions[id := y] && g.live == live
    && g.reports == h.reports + out
    && g.store == if out == [] then h.store else h.store[id := out[|out| - 1]]
  }

  lemma OneStep(catches: bool, h: Host, g: Host, id: RunId, x: Execution, live: map<RunId, bool>, out: seq<JobRun>,
                answer: Answer)
    requires Moved(h, g, id, x, live, out)
    ensures var (y, o) := Advanced(catches, x, answer, g.clock);
            var f := Step(catches, g, Advance(id, answer));
            && f.clock == g.clock
            && Moved(h, f, id, y, LiveAfter(live, id, x.at, y.at), if o.Some? then out + [o.value] else out)
  {
  }

  lemma OneWait(catches: bool, h: Host, g: Host, id: RunId, x: Execution, live: map<RunId, bool>,
                out: seq<JobRun>, d: nat)
    requires Moved(h, g, id, x, live, out)
    ensures Moved(h, Step(catches, g, Elapse(d)), id, x, live, out)
  {
  }

  function Opening(catches: bool, h: Host, id: RunId, s: Scenario): Host {
    Step(catches, Step(catches, h, Advance(id, Go)), Advance(id, Constructed(s.constructError)))
  }

  function Middle(catches: bool, h: Host, id: RunId, s: Scenario): Host {
    if s.constructError.Some? then h
    else if s.argumentError.Some? then Step(catches, h, Advance(id, Built(s.argumentError)))
    else Step(catches, Step(catches, h, Advance(id, Built(None))), Advance(id, BodyEnded(s.body, s.timedOut)))
  }

  function Closing(catches: bool, h: Host, id: RunId, s: Scenario): Host
    requires s.startReading <= s.endReading
  {
    var waited := Step(catches, h, Elapse(s.endReading - s.startReading));
    Step(catches, Step(catches, waited, Advance(id, Go)), Advance(id, Go))
  }

  /** One execution from beginning to end in a given scenario, with nothing in between. */
  function Undisturbed(catches: bool, h: Host, id: RunId, s: Scenario): Host
    requires s.startReading <= s.endReading
  {
    Closing(catches, Middle(catches, Opening(catches, h, id, s), id, s), id, s)
  }

  /** What is true of an execution nobody has taken up. */
  ghost predicate Untouched(h: Host, id: RunId) {
    && id in h.executions && id !in h.live && Fresh(h.executions[id].first)
    && h.executions[id] == Execution(h.executions[id].first, h.executions[id].first, Created, NOTHING_MET)
  }

  /** The part of a scenario an execution gets to see, up to its last block. */
  function Seen(s: Scenario): Scenario {
    if s.constructError.Some? then NOTHING_MET.(constructError := s.constructError, startReading := s.startReading)
    else if s.argumentError.Some? then NOTHING_MET.(argumentError := s.argumentError, startReading := s.startReading)
    else NOTHING_MET.(body := s.body, timedOut := s.timedOut, startReading := s.startReading)
  }

  lemma SeenIsEnough(catches: bool, run: JobRun, s: Scenario)
    ensures Published(catches, run, Seen(s).(endReading := s.endReading)) == Published(catches, run, s)
  {
  }

  /** The execution has reached its last block having published `out`. */
  ghost predicate AtTheEnd(catches: bool, h: Host, g: Host, id: RunId, x: Execution, s: Scenario, out: seq<JobRun>) {
    && g.clock == h.clock && id in g.executions
    && var y := g.executions[id];
       y.first == x.first && y.at == Ending && y.met == Seen(s) && OnCourse(catches, y, [x.first] + out)
       && Moved(h, g, id, y, h.live[id := false], out)
  }

  lemma OpeningTaken(catches: bool, h: Host, id: RunId, s: Scenario)
    requires Untouched(h, id) && h.clock == s.startReading
    ensures var x, g := h.executions[id], Opening(catches, h, id, s);
            && g.clock == h.clock
            && (s.constructError.None? ==> Moved(h, g, id, x.(at := Building), h.live[id := false], []))
            && (s.constructError.Some? ==>
                  AtTheEnd(catches, h, g, id, x, s, [JobExecutor.FailEarly(x.first, s.constructError.value, h.clock)]))
  {
    var x := h.executions[id];
    OneStep(catches, h, h, id, x, h.live, [], Go);
    var g := Step(catches, h, Advance(id, Go));
    OneStep(catches, h, g, id, x.(at := Constructing), h.live[id := false], [], Constructed(s.constructError));
    assert [] + h.reports == h.reports;
    if s.constructError.Some? {
      var run := JobExecutor.FailEarly(x.first, s.constructError.value, h.clock);
      assert [] + [run] == [run];
    }
  }

  lemma ArgumentsFail(catches: bool, h: Host, g: Host, id: RunId, s: Scenario)
    requires Untouched(h, id) && h.clock == g.clock == s.startReading
    requires s.constructError.None? && s.argumentError.Some?
    requires Moved(h, g, id, h.executions[id].(at := Building), h.live[id := false], [])
    ensures var x := h.executions[id];
            AtTheEnd(catches, h, Middle(catches, g, id, s), id, x, s,
                     if catches then [JobExecutor.FailEarly(x.first, s.argumentError.value, h.clock)] else [])
  {
    var x := h.executions[id];
    OneStep(catches, h, g, id, x.(at := Building), h.live[id := false], [], Built(s.argumentError));
    assert [x.first] + [] == [x.first];
  }

  lemma BodyRuns(catches: bool, h: Host, g: Host, id: RunId, s: Scenario)
    requires Untouched(h, id) && h.clock == g.clock == s.startReading
    requires s.constructError.None? && s.argumentError.None?
    requires Moved(h, g, id, h.executions[id].(at := Building), h.live[id := false], [])
    ensures var x := h.executions[id];
            AtTheEnd(catches, h, Middle(catches, g, id, s), id, x, s,
                     [x.first.(state := Running, startedAt := Some(s.startReading))])
  {
    var x := h.executions[id];
    var running := x.first.(startedAt := Some(h.clock), state := Running);
    var y := Execution(x.first, running, Invoked, NOTHING_MET.(startReading := h.clock));
    OneStep(catches, h, g, id, x.(at := Building), h.live[id := false], [], Built(None));
    var f := Step(catches, g, Advance(id, Built(None)));
    assert [] + [running] == [running];
    OneStep(catches, h, f, id, y, h.live[id := false], [running], BodyEnded(s.body, s.timedOut));
  }

  /** From the last block on: the stamp goes out and the live entry goes. */
  lemma ClosingMoves(catches: bool, h: Host, g: Host, id: RunId, y: Execution, s: Scenario, out: seq<JobRun>)
    requires s.startReading <= s.endReading && g.clock == s.startReading
    requires y.at == Ending && Moved(h, g, id, y, h.live[id := false], out)
    ensures var f := Closing(catches, g, id, s);
            var last := y.run.(finishedAt := Some(s.endReading));
            && f.reports == h.reports + (out + [last]) && f.store == h.store[id := last]
            && f.live == h.live - {id} && id in f.executions && f.executions[id].at == Left
  {
    var live := h.live[id := false];
    var waited := Step(catches, g, Elapse(s.endReading - s.startReading));
    OneWait(catches, h, g, id, y, live, out, s.endReading - s.startReading);
    OneStep(catches, h, waited, id, y, live, out, Go);
    var stamped := Step(catches, waited, Advance(id, Go));
    var last := y.run.(finishedAt := Some(s.endReading));
    var z := Execution(y.first, last, Stamped, y.met.(endReading := s.endReading));
    assert Moved(h, stamped, id, z, live, out + [last]);
    OneStep(catches, h, stamped, id, z, live, out + [last], Go);
  }

  lemma ClosingTaken(catches: bool, h: Host, g: Host, id: RunId, x: Execution, s: Scenario, out: seq<JobRun>)
    requires s.startReading <= s.endReading && h.clock == s.startReading && AtTheEnd(catches, h, g, id, x, s, out)
    ensures var f := Closing(catches, g, id, s);
            var snapshots := Published(catches, x.first, s);
            && f.reports == h.reports + snapshots && f.store == h.store[id := snapshots[|snapshots| - 1]]
            && f.live == h.live - {id} && id in f.executions && f.executions[id].at == Left
  {
    var y := g.executions[id];
    var last := y.run.(finishedAt := Some(s.endReading));
    ClosingMoves(catches, h, g, id, y, s, out);
    StampCompletes(catches, y, [x.first] + out, s.endReading);
    SeenIsEnough(catches, x.first, s);
    SameTail(x.first, out + [last], Published(catches, x.first, s), out, last);
  }

  lemma SameTail(first: JobRun, a: seq<JobRun>, b: seq<JobRun>, out: seq<JobRun>, last: JobRun)
    requires a == out + [last] && ([first] + out) + [last] == [first] + b
    ensures a == b
  {
    assert ([first] + out) + [last] == [first] + a;
    assert ([first] + a)[1..] == a && ([first] + b)[1..] == b;
  }

  lemma UndisturbedFromUntouched(catches: bool, h: Host, id: RunId, s: Scenario)
    requires Untouched(h, id) && h.clock == s.startReading <= s.endReading
    ensures var g := Undisturbed(catches, h, id, s);
            var snapshots := Published(catches, h.executions[id].first, s);
            && g.reports == h.reports + snapshots
            && g.store == h.store[id := snapshots[|snapshots| - 1]]
            && g.live == h.live - {id}
            && id in g.executions && g.executions[id].at == Left
  {
    var x := h.executions[id];
    var g := Opening(catches, h, id, s);
    OpeningTaken(catches, h, id, s);
    if s.constructError.Some? {
      var out := [JobExecutor.FailEarly(x.first, s.constructError.value, h.clock)];
      ClosingTaken(catches, h, Middle(catches, g, id, s), id, x, s, out);
    } else if s.argumentError.Some? {
      var out := if catches then [JobExecutor.FailEarly(x.first, s.argumentError.value, h.clock)] else [];
      ArgumentsFail(catches, h, g, id, s);
      ClosingTaken(catches, h, Middle(catches, g, id, s), id, x, s, out);
    } else {
      var out := [x.first.(state := Running, startedAt := Some(s.startReading))];
      BodyRuns(catches, h, g, id, s);
      ClosingTaken(catches, h, Middle(catches, g, id, s), id, x, s, out);
    }
  }

  lemma CreatedIsUntouched(catches: bool, events: seq<Event>, id: RunId)
    requires id in Run(catches, events).executions && Run(catches, events).executions[id].at == Created
    ensures Untouched(Run(catches, events), id)
  {
    RunKeepsHost(catches, events);
    var h := Run(catches, events);
    assert CourseOf(catches, h.executions[id], h.reports, id);
  }

  /** Wherever a run that nobody has taken up is driven undisturbed from, whatever went on before, its steps
      add up to `ContinueRun`: the same reports, stored value and live table. */
  lemma UndisturbedIsContinueRun(catches: bool, events: seq<Event>, id: RunId, s: Scenario)
    requires id in Run(catches, events).executions && Run(catches, events).executions[id].at == Created
    requires Run(catches, events).clock == s.startReading <= s.endReading
    ensures var h := Run(catches, events);
            var g := Undisturbed(catches, h, id, s);
            var snapshots := Published(catches, h.executions[id].first, s);
            && g.reports == h.reports + snapshots
            && g.store == h.store[id := snapshots[|snapshots| - 1]]
            && g.live == h.live - {id}
            && id in g.executions && g.executions[id].at == Left
  {
    CreatedIsUntouched(catches, events, id);
    UndisturbedFromUntouched(catches, Run(catches, events), id, s);
  }

  // ---- cancellation ----

  /** Cancellation was requested at some moment at which the run was live. */
  ghost predicate Requested(catches: bool, events: seq<Event>, id: RunId) {
    exists i :: RequestedAt(catches, events, id, i)
  }

  ghost predicate RequestedAt(catches: bool, events: seq<Event>, id: RunId, i: int) {
    0 <= i < |events| && events[i] == Cancel(id) && id in Run(catches, events[..i]).live
  }

  predicate NotTakenUp(h: Host, id: RunId) {
    id in h.executions ==> h.executions[id].at == Created
  }

  lemma NotTakenUpBefore(catches: bool, h: Host, e: Event, id: RunId)
    requires NotTakenUp(Step(catches, h, e), id)
    ensures NotTakenUp(h, id)
  {
  }

  lemma {:induction false} NeverRequested(catches: bool, events: seq<Event>, id: RunId)
    requires NotTakenUp(Run(catches, events), id)
    ensures !Requested(catches, events, id)
  {
    if events != [] {
      var n := |events| - 1;
      NotTakenUpBefore(catches, Run(catches, events[..n]), events[n], id);
      NeverRequested(catches, events[..n], id);
      LiveIsInFlight(catches, events[..n]);
      RequestedOneMore(catches, events, id);
    }
  }

  lemma RequestedOneMore(catches: bool, events: seq<Event>, id: RunId)
    requires events != []
    ensures var n := |events| - 1;
            Requested(catches, events, id)
            <==> Requested(catches, events[..n], id)
                 || (events[n] == Cancel(id) && id in Run(catches, events[..n]).live)
  {
    var n := |events| - 1;
    forall i | 0 <= i < n
      ensures RequestedAt(catches, events, id, i) <==> RequestedAt(catches, events[..n], id, i)
    {
      assert events[..n][..i] == events[..i];
    }
    if i :| RequestedAt(catches, events[..n], id, i) {
      assert RequestedAt(catches, events, id, i);
    }
    if events[n] == Cancel(id) && id in Run(catches, events[..n]).live {
      assert RequestedAt(catches, events, id, n);
    }
    if i :| RequestedAt(catches, events, id, i) {
      assert i < n ==> RequestedAt(catches, events[..n], id, i);
    }
  }

  lemma LiveIsInFlight(catches: bool, events: seq<Event>)
    ensures LiveMatches(Run(catches, events).executions, Run(catches, events).live)
  {
    RunKeepsHost(catches, events);
  }

  /** A token changes only by a request, and a run enters the live table unsignalled when it is taken up. */
  lemma SignalStep(catches: bool, h: Host, e: Event, id: RunId)
    requires LiveMatches(h.executions, h.live) && id in Step(catches, h, e).live
    ensures id in h.live ==> Step(catches, h, e).live[id] == (h.live[id] || e == Cancel(id))
    ensures id !in h.live ==> !Step(catches, h, e).live[id] && NotTakenUp(h, id)
  {
  }

  /** The token of a live run is signalled exactly when cancellation was requested while it was live:
      requests that come too early or too late have no effect. */
  lemma {:induction false} SignalledIffRequested(catches: bool, events: seq<Event>, id: RunId)
    requires id in Run(catches, events).live
    ensures Run(catches, events).live[id] <==> Requested(catches, events, id)
  {
    var n := |events| - 1;
    var h := Run(catches, events[..n]);
    LiveIsInFlight(catches, events[..n]);
    SignalStep(catches, h, events[n], id);
    RequestedOneMore(catches, events, id);
    if id in h.live {
      SignalledIffRequested(catches, events[..n], id);
    } else {
      NeverRequested(catches, events[..n], id);
    }
  }

  /** The run's token is signalled: by a request, or because the host is stopping. */
  predicate Signalled(h: Host, id: RunId) {
    id in h.live && (h.live[id] || h.stopping)
  }

  /** Bodies that throw a cancellation do so because they saw their token signalled or their timeout pass. */
  ghost predicate Cooperative(catches: bool, events: seq<Event>) {
    forall i | 0 <= i < |events| && events[i].Advance? && events[i].answer == BodyEnded(ThrowsCancellation, false) ::
      Signalled(Run(catches, events[..i]), events[i].id)
  }

  lemma CancelledStep(catches: bool, h: Host, e: Event, id: RunId)
    requires id in Step(catches, h, e).executions && Step(catches, h, e).executions[id].run.state == Cancelled
    ensures (id in h.executions && h.executions[id].run.state == Cancelled)
            || e == Advance(id, BodyEnded(ThrowsCancellation, false))
  {
  }

  /** With such bodies a run ends cancelled only if cancellation was requested while it was live, or the
      host was stopping. */
  lemma {:induction false} CancelledWasRequested(catches: bool, events: seq<Event>, id: RunId)
    requires Cooperative(catches, events)
    requires id in Run(catches, events).executions && Run(catches, events).executions[id].run.state == Cancelled
    ensures Requested(catches, events, id) || Run(catches, events).stopping
  {
    var n := |events| - 1;
    var h, e := Run(catches, events[..n]), events[n];
    RequestedOneMore(catches, events, id);
    CancelledStep(catches, h, e, id);
    if id in h.executions && h.executions[id].run.state == Cancelled {
      forall i | 0 <= i < n && events[..n][i].Advance? && events[..n][i].answer == BodyEnded(ThrowsCancellation, false)
        ensures Signalled(Run(catches, events[..n][..i]), events[..n][i].id)
      {
        assert events[..n][..i] == events[..i] && events[..n][i] == events[i];
      }
      CancelledWasRequested(catches, events[..n], id);
    } else {
      if h.live[id] {
        SignalledIffRequested(catches, events[..n], id);
      }
    }
  }
}
