/** The cron loop of one node: a table of next due times, rebuilt whenever the node becomes leader.

    A cron expression is an abstract set of occurrence times; the cron library's answer is the least
    occurrence strictly after a given time. Clocks may go backwards; nothing here assumes otherwise. */
module Scheduler {
  import opened Options

  type Time = int
  type JobName = string

  datatype Job = Job(name: JobName, enabled: bool)

  type CronTable = (JobName, Time) -> Option<Time>
  type Schedule = JobName -> iset<Time>

  ghost predicate LeastAfter(occurrences: iset<Time>, after: Time, r: Option<Time>) {
    match r
    case None => forall u | u in occurrences :: u <= after
    case Some(v) => v in occurrences && after < v && forall u | u in occurrences && after < u :: v <= u
  }

  ghost predicate Computes(next: CronTable, schedule: Schedule) {
    forall job, after :: LeastAfter(schedule(job), after, next(job, after))
  }

  /** One firing: the due time it was for, the clock when it was handled, and whether it ran or was
      dropped at the concurrency cap. */
  datatype Attempt = Attempt(due: Time, at: Time, ran: bool)

  /** One job within one leadership term: everything up to `horizon` has been dealt with. */
  datatype Track = Track(horizon: Time, attempts: seq<Attempt>)

  datatype Term = Term(start: Time, tracks: map<JobName, Track>)

  /** The cluster gate's answer to one attempt. An exception ends the loop. */
  datatype Answer = Granted | Refused | Threw

  // ---- one job ----

  function Max(a: Time, b: Time): Time {
    if a < b then b else a
  }

  predicate Due(next: Option<Time>, now: Time) {
    next.Some? && next.value <= now
  }

  /** A job's track after one look at the clock. */
  function Ticked(track: Track, next: Option<Time>, now: Time, answer: Answer): Track {
    Track(Max(track.horizon, now),
          if Due(next, now) then track.attempts + [Attempt(next.value, now, answer == Granted)] else track.attempts)
  }

  /** When the last of the first `n` attempts was handled; the start of the term if there is none. */
  function LastOf(start: Time, attempts: seq<Attempt>, n: nat): Time
    requires n <= |attempts|
  {
    if n == 0 then start else attempts[n - 1].at
  }

  function LastAttempt(start: Time, attempts: seq<Attempt>): Time {
    LastOf(start, attempts, |attempts|)
  }

  /** An attempt is for the first occurrence after the one before it was handled, and not early. */
  ghost predicate InOrder(occurrences: iset<Time>, start: Time, attempts: seq<Attempt>, i: nat)
    requires i < |attempts|
  {
    LeastAfter(occurrences, LastOf(start, attempts, i), Some(attempts[i].due)) && attempts[i].due <= attempts[i].at
  }

  /** Attempts in order, together reaching every occurrence after `start` up to `horizon`. */
  ghost predicate Covers(occurrences: iset<Time>, start: Time, track: Track) {
    && start <= LastAttempt(start, track.attempts) <= track.horizon
    && (forall i | 0 <= i < |track.attempts| :: InOrder(occurrences, start, track.attempts, i))
    && (forall i | 0 <= i < |track.attempts| :: track.attempts[i].at <= track.horizon)
    && (forall u | u in occurrences && LastAttempt(start, track.attempts) < u :: track.horizon < u)
  }

  /** The table entry a track goes with: the first occurrence after the job's last attempt. */
  ghost predicate InStep(occurrences: iset<Time>, start: Time, track: Track, next: Option<Time>) {
    && Covers(occurrences, start, track)
    && LeastAfter(occurrences, LastAttempt(start, track.attempts), next)
    && LeastAfter(occurrences, track.horizon, next)
  }

  lemma TickKeepsStep(occurrences: iset<Time>, start: Time, track: Track, next: Option<Time>, now: Time,
                      answer: Answer, after: Option<Time>)
    requires InStep(occurrences, start, track, next)
    requires Due(next, now) ==> LeastAfter(occurrences, now, after)
    ensures InStep(occurrences, start, Ticked(track, next, now, answer), if Due(next, now) then after else next)
  {
    var t := Ticked(track, next, now, answer);
    forall i | 0 <= i < |t.attempts|
      ensures InOrder(occurrences, start, t.attempts, i)
    {
      assert i < |track.attempts| ==> InOrder(occurrences, start, track.attempts, i);
    }
  }

  /** Attempts for a job never go back: each is due after the one before was handled. */
  lemma {:induction false} AttemptsAdvance(occurrences: iset<Time>, start: Time, track: Track, i: nat, j: nat)
    requires Covers(occurrences, start, track) && i < j < |track.attempts|
    ensures start < track.attempts[i].due <= track.attempts[i].at < track.attempts[j].due
    decreases j
  {
    assert InOrder(occurrences, start, track.attempts, j);
    FirstAttemptAfterStart(occurrences, start, track, i);
    if i < j - 1 {
      assert InOrder(occurrences, start, track.attempts, j - 1);
      AttemptsAdvance(occurrences, start, track, i, j - 1);
    }
  }

  lemma {:induction false} FirstAttemptAfterStart(occurrences: iset<Time>, start: Time, track: Track, i: nat)
    requires Covers(occurrences, start, track) && i < |track.attempts|
    ensures start < track.attempts[i].due <= track.attempts[i].at
  {
    assert InOrder(occurrences, start, track.attempts, i);
    if i > 0 {
      FirstAttemptAfterStart(occurrences, start, track, i - 1);
    }
  }

  predicate Reaches(a: Attempt, u: Time) {
    a.due <= u <= a.at
  }

  lemma {:induction false} SomeAttemptReaches(occurrences: iset<Time>, start: Time, track: Track, n: nat, u: Time)
    returns (i: nat)
    requires Covers(occurrences, start, track) && n <= |track.attempts|
    requires u in occurrences && start < u <= LastOf(start, track.attempts, n)
    ensures i < n && Reaches(track.attempts[i], u)
  {
    assert InOrder(occurrences, start, track.attempts, n - 1);
    if LastOf(start, track.attempts, n - 1) < u {
      i := n - 1;
    } else {
      i := SomeAttemptReaches(occurrences, start, track, n - 1, u);
    }
  }

  /** Every occurrence after the term's start and up to the horizon is reached by exactly one attempt. */
  lemma ExactlyOneAttempt(occurrences: iset<Time>, start: Time, track: Track, u: Time) returns (i: nat)
    requires Covers(occurrences, start, track)
    requires u in occurrences && start < u <= track.horizon
    ensures i < |track.attempts| && Reaches(track.attempts[i], u)
    ensures forall j | 0 <= j < |track.attempts| :: Reaches(track.attempts[j], u) ==> j == i
  {
    i := SomeAttemptReaches(occurrences, start, track, |track.attempts|, u);
    forall j | 0 <= j < |track.attempts| && Reaches(track.attempts[j], u)
      ensures j == i
    {
      if j < i {
        AttemptsAdvance(occurrences, start, track, j, i);
      } else if i < j {
        AttemptsAdvance(occurrences, start, track, i, j);
      }
    }
  }

  // ---- the loop ----

  ghost predicate DistinctNames(jobs: seq<Job>) {
    forall i, j | 0 <= i < j < |jobs| :: jobs[i].name != jobs[j].name
  }

  /** A job's track in a term is sound: complete coverage if enabled, no attempt at all if not. */
  ghost predicate SoundTrack(schedule: Schedule, job: Job, term: Term) {
    && job.name in term.tracks
    && (if job.enabled then Covers(schedule(job.name), term.start, term.tracks[job.name])
        else term.tracks[job.name].attempts == [])
  }

  ghost predicate SoundTerm(schedule: Schedule, jobs: seq<Job>, term: Term) {
    forall i | 0 <= i < |jobs| :: SoundTrack(schedule, jobs[i], term)
  }

  ghost predicate SoundTerms(schedule: Schedule, jobs: seq<Job>, terms: seq<Term>) {
    forall k | 0 <= k < |terms| :: SoundTerm(schedule, jobs, terms[k])
  }

  type NextRuns = map<JobName, Option<Time>>

  ghost predicate TermInStep(schedule: Schedule, jobs: seq<Job>, term: Term, table: NextRuns) {
    forall i | 0 <= i < |jobs| ::
      && SoundTrack(schedule, jobs[i], term)
      && jobs[i].name in table
      && (jobs[i].enabled ==>
            InStep(schedule(jobs[i].name), term.start, term.tracks[jobs[i].name], table[jobs[i].name]))
  }

  /** A term just begun: no attempts yet, every entry computed from its start. */
  ghost predicate Opened(jobs: seq<Job>, next: CronTable, start: Time, term: Term, table: NextRuns) {
    && term.start == start
    && forall i | 0 <= i < |jobs| ::
         && jobs[i].name in term.tracks && term.tracks[jobs[i].name] == Track(start, [])
         && jobs[i].name in table && table[jobs[i].name] == next(jobs[i].name, start)
  }

  /** What one job's entry and track become when the pass does or does not get to it. */
  ghost predicate JobPassed(job: Job, next: CronTable, now: Time, answer: Answer, reached: bool,
                            before: Term, table: NextRuns, term: Term, table': NextRuns)
  {
    && job.name in before.tracks && job.name in table && job.name in term.tracks && job.name in table'
    && term.tracks[job.name]
       == (if reached && job.enabled then Ticked(before.tracks[job.name], table[job.name], now, answer)
           else before.tracks[job.name])
    && table'[job.name]
       == (if reached && job.enabled && Due(table[job.name], now) then next(job.name, now) else table[job.name])
  }

  /** The first `handled` jobs were dealt with, the others not. */
  ghost predicate Passed(jobs: seq<Job>, next: CronTable, now: Time, answers: seq<Answer>, handled: nat,
                         before: Term, table: NextRuns, term: Term, table': NextRuns)
    requires |answers| == |jobs|
  {
    && term.start == before.start
    && forall i | 0 <= i < |jobs| :: JobPassed(jobs[i], next, now, answers[i], i < handled, before, table, term, table')
  }

  /** Some number of jobs was dealt with; all of them, if nothing was thrown. */
  ghost predicate OnePass(jobs: seq<Job>, next: CronTable, now: Time, answers: seq<Answer>, alive: bool,
                          before: Term, table: NextRuns, term: Term, table': NextRuns)
    requires |answers| == |jobs|
  {
    exists handled: nat :: handled <= |jobs| && (alive <==> handled == |jobs|)
                           && Passed(jobs, next, now, answers, handled, before, table, term, table')
  }

  lemma PassOneMore(jobs: seq<Job>, next: CronTable, now: Time, answers: seq<Answer>, handled: nat,
                    before: Term, table: NextRuns, term: Term, table': NextRuns, term2: Term, table2: NextRuns)
    requires DistinctNames(jobs) && handled < |jobs| == |answers|
    requires Passed(jobs, next, now, answers, handled, before, table, term, table')
    requires term2.start == term.start
    requires var name := jobs[handled].name;
             && name in term2.tracks && name in table2 && name in before.tracks && name in table
             && term2.tracks == term.tracks[name := term2.tracks[name]] && table2 == table'[name := table2[name]]
             && JobPassed(jobs[handled], next, now, answers[handled], true, before, table, term2, table2)
    ensures Passed(jobs, next, now, answers, handled + 1, before, table, term2, table2)
  {
    forall i | 0 <= i < |jobs|
      ensures JobPassed(jobs[i], next, now, answers[i], i < handled + 1, before, table, term2, table2)
    {
      assert JobPassed(jobs[i], next, now, answers[i], i < handled, before, table, term, table');
      if i != handled {
        assert jobs[i].name != jobs[handled].name;
      }
    }
  }

  lemma PassKeepsStep(schedule: Schedule, jobs: seq<Job>, next: CronTable, now: Time, answers: seq<Answer>,
                      handled: nat, before: Term, table: NextRuns, term: Term, table': NextRuns)
    requires Computes(next, schedule) && |answers| == |jobs|
    requires TermInStep(schedule, jobs, before, table)
    requires Passed(jobs, next, now, answers, handled, before, table, term, table')
    ensures TermInStep(schedule, jobs, term, table') && SoundTerm(schedule, jobs, term)
  {
    forall i | 0 <= i < |jobs|
      ensures SoundTrack(schedule, jobs[i], term) && jobs[i].name in table'
      ensures jobs[i].enabled ==>
                InStep(schedule(jobs[i].name), term.start, term.tracks[jobs[i].name], table'[jobs[i].name])
    {
      var job := jobs[i];
      assert JobPassed(job, next, now, answers[i], i < handled, before, table, term, table');
      if i < handled && job.enabled {
        TickKeepsStep(schedule(job.name), before.start, before.tracks[job.name], table[job.name], now, answers[i],
                      next(job.name, now));
      }
    }
  }

  // ---- terms in time ----

  /** Every enabled job's horizon in the term is reached by `t`. */
  ghost predicate EndsBy(jobs: seq<Job>, term: Term, t: Time) {
    forall i | 0 <= i < |jobs| && jobs[i].enabled && jobs[i].name in term.tracks ::
      term.tracks[jobs[i].name].horizon <= t
  }

  /** Each term ends before the next one starts, and the last one by `clock`. */
  ghost predicate InTime(jobs: seq<Job>, terms: seq<Term>, clock: Time) {
    && (forall k | 0 < k < |terms| :: EndsBy(jobs, terms[k - 1], terms[k].start))
    && (terms != [] ==> EndsBy(jobs, terms[|terms| - 1], clock))
  }

  lemma InTimeWhenOpened(jobs: seq<Job>, next: CronTable, terms: seq<Term>, clock: Time, term: Term, table: NextRuns)
    requires InTime(jobs, terms, clock) && clock <= term.start && Opened(jobs, next, term.start, term, table)
    ensures InTime(jobs, terms + [term], term.start)
  {
    var all := terms + [term];
    forall k | 0 < k < |all|
      ensures EndsBy(jobs, all[k - 1], all[k].start)
    {
      if k < |terms| {
        assert EndsBy(jobs, terms[k - 1], terms[k].start);
      }
    }
  }

  lemma InTimeWhenPassed(jobs: seq<Job>, next: CronTable, terms: seq<Term>, clock: Time, now: Time,
                           answers: seq<Answer>,
                         handled: nat, table: NextRuns, term: Term, table': NextRuns)
    requires InTime(jobs, terms, clock) && terms != [] && clock <= now && |answers| == |jobs|
    requires Passed(jobs, next, now, answers, handled, terms[|terms| - 1], table, term, table')
    ensures InTime(jobs, terms[..|terms| - 1] + [term], now)
  {
    var n := |terms| - 1;
    var all := terms[..n] + [term];
    forall i | 0 <= i < |jobs| && jobs[i].enabled
      ensures jobs[i].name in term.tracks && term.tracks[jobs[i].name].horizon <= now
    {
      assert JobPassed(jobs[i], next, now, answers[i], i < handled, terms[n], table, term, table');
      assert terms[n].tracks[jobs[i].name].horizon <= clock;
    }
    forall k | 0 < k < |all|
      ensures EndsBy(jobs, all[k - 1], all[k].start)
    {
      assert EndsBy(jobs, terms[k - 1], terms[k].start);
    }
  }

  // ---- what the loop keeps ----

  /** Every term is sound, the current one in step with the table, and all in time while the clock was steady. */
  ghost predicate Keeps(schedule: Schedule, jobs: seq<Job>, terms: seq<Term>, leading: bool, table: NextRuns,
                        clock: Time, steady: bool)
  {
    && SoundTerms(schedule, jobs, terms)
    && (leading ==> terms != [] && TermInStep(schedule, jobs, terms[|terms| - 1], table))
    && (steady ==> InTime(jobs, terms, clock))
  }

  lemma OpeningKeeps(schedule: Schedule, jobs: seq<Job>, next: CronTable, terms: seq<Term>, leading: bool,
                     old_: NextRuns, clock: Time, steady: bool, term: Term, table: NextRuns)
    requires Computes(next, schedule) && Keeps(schedule, jobs, terms, leading, old_, clock, steady)
    requires Opened(jobs, next, term.start, term, table)
    ensures Keeps(schedule, jobs, terms + [term], true, table, term.start, steady && clock <= term.start)
  {
    assert TermInStep(schedule, jobs, term, table);
    assert SoundTerm(schedule, jobs, term);
    if steady && clock <= term.start {
      InTimeWhenOpened(jobs, next, terms, clock, term, table);
    }
  }

  lemma PassKeeps(schedule: Schedule, jobs: seq<Job>, next: CronTable, terms: seq<Term>, table: NextRuns, clock: Time,
                  steady: bool, now: Time, answers: seq<Answer>, handled: nat, term: Term, table': NextRuns)
    requires Computes(next, schedule) && |answers| == |jobs|
    requires Keeps(schedule, jobs, terms, true, table, clock, steady)
    requires Passed(jobs, next, now, answers, handled, terms[|terms| - 1], table, term, table')
    ensures Keeps(schedule, jobs, terms[..|terms| - 1] + [term], true, table', now, steady && clock <= now)
  {
    PassKeepsStep(schedule, jobs, next, now, answers, handled, terms[|terms| - 1], table, term, table');
    if steady && clock <= now {
      InTimeWhenPassed(jobs, next, terms, clock, now, answers, handled, table, term, table');
    }
  }

  class Loop {
    const jobs: seq<Job>
    const next: CronTable
    ghost const schedule: Schedule
    var nextRuns: NextRuns
    var wasLeader: bool
    ghost var terms: seq<Term>
    ghost var clock: Time                         // the last reading taken
    ghost var steady: bool                        // no reading so far was earlier than the one before

    constructor (jobs: seq<Job>, next: CronTable, ghost schedule: Schedule, ghost now: Time)
      requires DistinctNames(jobs) && Computes(next, schedule)
      ensures Valid() && terms == [] && !wasLeader && clock == now && steady
      ensures this.jobs == jobs && this.next == next && this.schedule == schedule
    {
      this.jobs, this.next, this.schedule := jobs, next, schedule;
      nextRuns, wasLeader, terms, clock, steady := map[], false, [], now, true;
    }

    ghost predicate Valid()
      reads this
    {
      && DistinctNames(jobs) && Computes(next, schedule)
      && Keeps(schedule, jobs, terms, wasLeader, nextRuns, clock, steady)
    }

    /** The terms before the current one. */
    ghost function PastTerms(): seq<Term>
      reads this
    {
      if wasLeader && terms != [] then terms[..|terms| - 1] else terms
    }

    /** Becoming leader: forget the old table and compute every job's next time from now. */
    method OpenTerm(bootNow: Time)
      requires Valid()
      modifies this`nextRuns, this`wasLeader, this`terms, this`clock, this`steady
      ensures Valid() && wasLeader
      ensures clock == bootNow && steady == (old(steady) && old(clock) <= bootNow)
      ensures terms != [] && terms[..|terms| - 1] == old(terms)
      ensures Opened(jobs, next, bootNow, terms[|terms| - 1], nextRuns)
    {
      ghost var before := nextRuns;
      ghost var term;
      nextRuns, term := Rebuild(jobs, next, bootNow);
      OpeningKeeps(schedule, jobs, next, terms, wasLeader, before, clock, steady, term, nextRuns);
      steady := steady && clock <= bootNow;
      clock := bootNow;
      terms := terms + [term];
      wasLeader := true;
      assert terms[..|terms| - 1] == old(terms);
    }

    /** The table computed afresh, job by job. */
    static method Rebuild(jobs: seq<Job>, next: CronTable, bootNow: Time) returns (table: NextRuns, ghost term: Term)
      ensures Opened(jobs, next, bootNow, term, table)
    {
      table := map[];
      term := Term(bootNow, map[]);
      for n := 0 to |jobs|
        invariant term.start == bootNow
        invariant forall i | 0 <= i < n :: jobs[i].name in table && table[jobs[i].name] == next(jobs[i].name, bootNow)
        invariant forall i | 0 <= i < n ::
                            jobs[i].name in term.tracks && term.tracks[jobs[i].name] == Track(bootNow, [])
      {
        table := table[jobs[n].name := next(jobs[n].name, bootNow)];
        term := term.(tracks := term.tracks[jobs[n].name := Track(bootNow, [])]);
      }
    }

    /** One pass over the jobs. Returns how many were dealt with; fewer than all means the gate threw. */
    method FireDue(now: Time, answers: seq<Answer>) returns (handled: nat)
      requires Valid() && wasLeader && |answers| == |jobs|
      modifies this`nextRuns, this`terms, this`clock, this`steady
      ensures Valid() && handled <= |jobs|
      ensures clock == now && steady == (old(steady) && old(clock) <= now)
      ensures |terms| == |old(terms)| && terms[..|terms| - 1] == old(terms)[..|terms| - 1]
      ensures Passed(jobs, next, now, answers, handled, old(terms)[|terms| - 1], old(nextRuns),
                     terms[|terms| - 1], nextRuns)
      ensures forall i | 0 <= i < |jobs| && jobs[i].enabled && Due(old(nextRuns)[jobs[i].name], now) ::
                && (i < handled ==> answers[i] != Threw)
                && (i == handled ==> answers[i] == Threw)
      ensures handled < |jobs| ==> jobs[handled].enabled && Due(old(nextRuns)[jobs[handled].name], now)
    {
      ghost var before, table := terms[|terms| - 1], nextRuns;
      ghost var term;
      handled, nextRuns, term := Pass(jobs, next, now, answers, nextRuns, before);
      PassKeeps(schedule, jobs, next, terms, table, clock, steady, now, answers, handled, term, nextRuns);
      steady := steady && clock <= now;
      clock := now;
      terms := terms[..|terms| - 1] + [term];
    }

    /** The pass itself. When the gate throws, the entries updated so far stay updated. */
    static method Pass(jobs: seq<Job>, next: CronTable, now: Time, answers: seq<Answer>, table: NextRuns,
                       ghost before: Term)
      returns (handled: nat, nextRuns: NextRuns, ghost term: Term)
      requires DistinctNames(jobs) && |answers| == |jobs|
      requires Passed(jobs, next, now, answers, 0, before, table, before, table)
      ensures handled <= |jobs|
      ensures Passed(jobs, next, now, answers, handled, before, table, term, nextRuns)
      ensures forall i | 0 <= i < handled && jobs[i].enabled && Due(table[jobs[i].name], now) :: answers[i] != Threw
      ensures handled < |jobs| ==>
                jobs[handled].enabled && Due(table[jobs[handled].name], now) && answers[handled] == Threw
    {
      handled, nextRuns, term := 0, table, before;
      while handled < |jobs|
        invariant handled <= |jobs|
        invariant Passed(jobs, next, now, answers, handled, before, table, term, nextRuns)
        invariant forall i | 0 <= i < handled && jobs[i].enabled && Due(table[jobs[i].name], now) :: answers[i] != Threw
      {
        var job := jobs[handled];
        assert JobPassed(job, next, now, answers[handled], false, before, table, term, nextRuns);
        ghost var soFar, entries := term, nextRuns;
        if job.enabled {
          var due := nextRuns[job.name];
          if due.Some? && due.value <= now {
            if answers[handled] == Threw {
              break;
            }
            nextRuns := nextRuns[job.name := next(job.name, now)];
          }
          term := term.(tracks := term.tracks[job.name := Ticked(term.tracks[job.name], due, now, answers[handled])]);
        }
        PassOneMore(jobs, next, now, answers, handled, before, table, soFar, entries, term, nextRuns);
        handled := handled + 1;
      }
    }

    /** One turn of the loop: notice leadership edges, then fire what is due while leading. */
    method Turn(isLeader: bool, bootNow: Time, now: Time, answers: seq<Answer>) returns (alive: bool)
      requires Valid() && |answers| == |jobs|
      modifies this`nextRuns, this`wasLeader, this`terms, this`clock, this`steady
      ensures Valid() && wasLeader == isLeader
      ensures clock == (if isLeader then now else old(clock))
      ensures steady == (old(steady) && (isLeader ==> if old(wasLeader) then old(clock) <= now
                                                      else old(clock) <= bootNow <= now))
      ensures !isLeader ==> alive && terms == old(terms) && nextRuns == old(nextRuns)
      ensures isLeader ==>
                && terms != [] && PastTerms() == old(PastTerms())
                && terms[|terms| - 1].start == (if old(wasLeader) then old(terms)[|old(terms)| - 1].start else bootNow)
      ensures isLeader ==>
                if old(wasLeader)
                then OnePass(jobs, next, now, answers, alive, old(terms)[|old(terms)| - 1], old(nextRuns),
                             terms[|terms| - 1], nextRuns)
                else exists before, table ::
                       && Opened(jobs, next, bootNow, before, table)
                       && OnePass(jobs, next, now, answers, alive, before, table, terms[|terms| - 1], nextRuns)
      ensures isLeader && alive ==>
                forall i | 0 <= i < |jobs| && jobs[i].enabled ::
                  jobs[i].name in terms[|terms| - 1].tracks && now <= terms[|terms| - 1].tracks[jobs[i].name].horizon
    {
      alive := true;
      if !isLeader {
        wasLeader := false;
        return;
      }
      if !wasLeader {
        OpenTerm(bootNow);
      }
      ghost var before, table := terms[|terms| - 1], nextRuns;
      var handled := FireDue(now, answers);
      alive := handled == |jobs|;
      assert OnePass(jobs, next, now, answers, alive, before, table, terms[|terms| - 1], nextRuns);
      if alive {
        WholePassReaches(jobs, next, now, answers, before, table, terms[|terms| - 1], nextRuns);
      }
    }
  }

  lemma WholePassReaches(jobs: seq<Job>, next: CronTable, now: Time, answers: seq<Answer>,
                         before: Term, table: NextRuns, term: Term, table': NextRuns)
    requires |answers| == |jobs| && Passed(jobs, next, now, answers, |jobs|, before, table, term, table')
    ensures forall i | 0 <= i < |jobs| && jobs[i].enabled ::
              jobs[i].name in term.tracks && now <= term.tracks[jobs[i].name].horizon
  {
    forall i | 0 <= i < |jobs| && jobs[i].enabled
      ensures jobs[i].name in term.tracks && now <= term.tracks[jobs[i].name].horizon
    {
      assert JobPassed(jobs[i], next, now, answers[i], true, before, table, term, table');
    }
  }
}
