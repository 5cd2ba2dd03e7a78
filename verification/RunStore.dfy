/** The in-memory store of recent runs: a lookup by id and, per job, a bounded list, newest first.

    The reference is the history of operations. From it come an unbounded log per job and the latest
    value of each run; the two indexes are compared with those. */
module RunStore {
  import opened Options
  import opened JobRuns

  datatype Op = Added(run: JobRun) | Updated(run: JobRun)

  /** Every run ever added for a job, newest first. */
  function Log(h: seq<Op>, job: string): seq<RunId> {
    if h == [] then []
    else
      var last := h[|h| - 1];
      (if last.Added? && last.run.jobName == job then [last.run.id] else []) + Log(h[..|h| - 1], job)
  }

  function Latest(h: seq<Op>, id: RunId): Option<JobRun> {
    if h == [] then None
    else if h[|h| - 1].run.id == id then Some(h[|h| - 1].run)
    else Latest(h[..|h| - 1], id)
  }

  function Take<T>(s: seq<T>, n: int): seq<T> {
    if n <= 0 then [] else if n < |s| then s[..n] else s
  }

  ghost predicate WasAdded(h: seq<Op>, id: RunId) {
    exists i :: AddsAt(h, i, id)
  }

  ghost predicate AddsAt(h: seq<Op>, i: int, id: RunId) {
    0 <= i < |h| && h[i].Added? && h[i].run.id == id
  }

  ghost predicate FreshAdds(h: seq<Op>) {
    forall i, j | 0 <= i < j < |h| && h[i].Added? && h[j].Added? :: h[i].run.id != h[j].run.id
  }

  /** Among the newest `cap` runs of some job. */
  ghost predicate Listed(h: seq<Op>, cap: nat, id: RunId) {
    exists job :: ListedIn(h, cap, job, id)
  }

  ghost predicate ListedIn(h: seq<Op>, cap: nat, job: string, id: RunId) {
    id in Take(Log(h, job), cap)
  }

  /** Updated at a moment when it was in no list, and not added since. */
  ghost predicate Stray(h: seq<Op>, cap: nat, id: RunId) {
    exists i :: StrayAt(h, cap, id, i)
  }

  ghost predicate StrayAt(h: seq<Op>, cap: nat, id: RunId, i: int) {
    && 0 <= i < |h| && h[i].Updated? && h[i].run.id == id
    && !Listed(h[..i], cap, id)
    && forall k | i < k < |h| :: h[k].Added? ==> h[k].run.id != id
  }

  function ListFor(byJob: map<string, seq<RunId>>, job: string): seq<RunId> {
    if job in byJob then byJob[job] else []
  }

  ghost predicate ListsMatch(h: seq<Op>, cap: nat, byJob: map<string, seq<RunId>>) {
    forall job :: ListOf(h, cap, byJob, job)
  }

  ghost predicate ListOf(h: seq<Op>, cap: nat, byJob: map<string, seq<RunId>>, job: string) {
    ListFor(byJob, job) == Take(Log(h, job), cap)
  }

  ghost predicate LookupMatches(h: seq<Op>, cap: nat, byId: map<RunId, JobRun>) {
    forall id :: LookupOf(h, cap, byId, id)
  }

  ghost predicate LookupOf(h: seq<Op>, cap: nat, byId: map<RunId, JobRun>, id: RunId) {
    && (id in byId <==> Listed(h, cap, id) || Stray(h, cap, id))
    && (id in byId ==> Latest(h, id) == Some(byId[id]))
  }

  // ---- logs ----

  lemma {:induction false} LoggedWasAdded(h: seq<Op>, job: string, id: RunId) returns (i: nat)
    requires id in Log(h, job)
    ensures AddsAt(h, i, id) && h[i].run.jobName == job
  {
    var n := |h| - 1;
    if h[n].Added? && h[n].run.jobName == job && h[n].run.id == id {
      i := n;
    } else {
      i := LoggedWasAdded(h[..n], job, id);
    }
  }

  lemma {:induction false} AddedIsLogged(h: seq<Op>, i: nat)
    requires i < |h| && h[i].Added?
    ensures h[i].run.id in Log(h, h[i].run.jobName)
  {
    if i < |h| - 1 {
      AddedIsLogged(h[..|h| - 1], i);
    }
  }

  ghost predicate Distinct(ids: seq<RunId>) {
    forall i, j | 0 <= i < j < |ids| :: ids[i] != ids[j]
  }

  lemma {:induction false} LogIsDistinct(h: seq<Op>, job: string)
    requires FreshAdds(h)
    ensures Distinct(Log(h, job))
  {
    if h != [] {
      var n := |h| - 1;
      var rest := Log(h[..n], job);
      LogIsDistinct(h[..n], job);
      if h[n].Added? && h[n].run.jobName == job {
        if h[n].run.id in rest {
          var i := LoggedWasAdded(h[..n], job, h[n].run.id);
        }
        assert forall k | 0 <= k < |rest| :: rest[k] in rest;
      }
    }
  }

  /** A run is in the log of one job only. */
  lemma OneJobPerRun(h: seq<Op>, a: string, b: string, id: RunId)
    requires FreshAdds(h) && id in Log(h, a) && id in Log(h, b)
    ensures a == b
  {
    var i := LoggedWasAdded(h, a, id);
    var j := LoggedWasAdded(h, b, id);
    assert i == j;
  }

  /** Logs only grow at the new end. */
  lemma {:induction false} OlderLogIsSuffix(h: seq<Op>, i: nat, job: string)
    requires i <= |h|
    ensures |Log(h[..i], job)| <= |Log(h, job)|
    ensures Log(h, job)[|Log(h, job)| - |Log(h[..i], job)|..] == Log(h[..i], job)
  {
    if i == |h| {
      assert h[..i] == h;
    } else {
      var n := |h| - 1;
      OlderLogIsSuffix(h[..n], i, job);
      assert h[..n][..i] == h[..i];
    }
  }

  /** A run that has left its job's list never comes back. */
  lemma ListedThenListedBefore(h: seq<Op>, i: nat, cap: nat, id: RunId)
    requires FreshAdds(h) && i <= |h| && WasAdded(h[..i], id) && Listed(h, cap, id)
    ensures Listed(h[..i], cap, id)
  {
    var job :| ListedIn(h, cap, job, id);
    ListedInOlder(h, h[..i], i, cap, job, id);
  }

  lemma ListedInOlder(h: seq<Op>, older: seq<Op>, i: nat, cap: nat, job: string, id: RunId)
    requires FreshAdds(h) && i <= |h| && older == h[..i] && WasAdded(older, id) && ListedIn(h, cap, job, id)
    ensures ListedIn(older, cap, job, id)
  {
    LoggedBefore(h, i, job, id);
    OlderLogIsSuffix(h, i, job);
    LogIsDistinct(h, job);
    InFrontOfSuffix(Log(h, job), Log(older, job), cap, id);
  }

  /** A run added early enough is in the older log of the job that logs it now. */
  lemma LoggedBefore(h: seq<Op>, i: nat, job: string, id: RunId)
    requires FreshAdds(h) && i <= |h| && WasAdded(h[..i], id) && id in Log(h, job)
    ensures id in Log(h[..i], job)
  {
    var a :| AddsAt(h[..i], a, id);
    assert h[..i][a] == h[a];
    AddedIsLogged(h[..i], a);
    AddedIsLogged(h, a);
    OneJobPerRun(h, job, h[a].run.jobName, id);
  }

  /** An element within the first `cap` of a list is within the first `cap` of any suffix that holds it. */
  lemma InFrontOfSuffix(log: seq<RunId>, older: seq<RunId>, cap: nat, id: RunId)
    requires Distinct(log) && id in Take(log, cap) && id in older
    requires |older| <= |log| && log[|log| - |older|..] == older
    ensures id in Take(older, cap)
  {
    var p :| 0 <= p < |older| && older[p] == id;
    var q :| 0 <= q < |Take(log, cap)| && Take(log, cap)[q] == id;
    assert log[|log| - |older| + p] == older[p];
    assert q == |log| - |older| + p;
    assert Take(older, cap)[p] == id;
  }

  /** A run still in its list is not a stray. */
  lemma ListedIsNotStray(h: seq<Op>, cap: nat, id: RunId)
    requires FreshAdds(h) && Listed(h, cap, id)
    ensures !Stray(h, cap, id)
  {
    var job :| ListedIn(h, cap, job, id);
    var a := LoggedWasAdded(h, job, id);
    forall i | StrayAt(h, cap, id, i)
      ensures false
    {
      assert a < i;
      assert h[..i][a] == h[a] && AddsAt(h[..i], a, id);
      ListedThenListedBefore(h, i, cap, id);
    }
  }

  // ---- one operation ----

  lemma StrayAfterAdd(h: seq<Op>, cap: nat, run: JobRun, id: RunId)
    ensures Stray(h + [Added(run)], cap, id) <==> Stray(h, cap, id) && id != run.id
  {
    var g := h + [Added(run)];
    forall i | 0 <= i < |h|
      ensures StrayAt(g, cap, id, i) <==> StrayAt(h, cap, id, i) && id != run.id
    {
      assert g[..i] == h[..i];
      assert g[|h|] == Added(run);
      assert forall k | 0 <= k < |h| :: g[k] == h[k];
    }
  }

  lemma StrayAfterUpdate(h: seq<Op>, cap: nat, run: JobRun, id: RunId)
    ensures Stray(h + [Updated(run)], cap, id) <==> Stray(h, cap, id) || (id == run.id && !Listed(h, cap, id))
  {
    var g := h + [Updated(run)];
    assert g[..|h|] == h;
    assert StrayAt(g, cap, id, |h|) <==> id == run.id && !Listed(h, cap, id);
    forall i | 0 <= i < |h|
      ensures StrayAt(g, cap, id, i) <==> StrayAt(h, cap, id, i)
    {
      assert g[..i] == h[..i];
      assert forall k | 0 <= k < |h| :: g[k] == h[k];
    }
    if Stray(h, cap, id) {
      var i :| StrayAt(h, cap, id, i);
      assert StrayAt(g, cap, id, i);
    }
  }

  lemma LogAfter(h: seq<Op>, op: Op, job: string)
    ensures Log(h + [op], job)
            == (if op.Added? && op.run.jobName == job then [op.run.id] + Log(h, job) else Log(h, job))
    ensures forall id :: Latest(h + [op], id) == if id == op.run.id then Some(op.run) else Latest(h, id)
  {
    assert (h + [op])[..|h|] == h;
  }

  lemma UpdateKeepsMatch(h: seq<Op>, cap: nat, byJob: map<string, seq<RunId>>, byId: map<RunId, JobRun>, run: JobRun)
    requires ListsMatch(h, cap, byJob) && LookupMatches(h, cap, byId)
    ensures ListsMatch(h + [Updated(run)], cap, byJob)
    ensures LookupMatches(h + [Updated(run)], cap, byId[run.id := run])
  {
    var g, after := h + [Updated(run)], byId[run.id := run];
    forall job
      ensures ListOf(g, cap, byJob, job)
    {
      assert ListOf(h, cap, byJob, job);
      LogAfter(h, Updated(run), job);
    }
    forall id
      ensures LookupOf(g, cap, after, id)
    {
      assert LookupOf(h, cap, byId, id);
      LogAfter(h, Updated(run), "");
      ListedAfterUpdate(h, cap, run, id);
      StrayAfterUpdate(h, cap, run, id);
    }
  }

  lemma ListedAfterUpdate(h: seq<Op>, cap: nat, run: JobRun, id: RunId)
    ensures Listed(h + [Updated(run)], cap, id) <==> Listed(h, cap, id)
  {
    forall job
      ensures ListedIn(h + [Updated(run)], cap, job, id) <==> ListedIn(h, cap, job, id)
    {
      LogAfter(h, Updated(run), job);
    }
  }

  /** What adding does to one job's list, and which run it pushes out. */
  function Pushed(list: seq<RunId>, cap: nat, id: RunId): seq<RunId> {
    Take([id] + list, cap)
  }

  function PushedOut(list: seq<RunId>, cap: nat, id: RunId): set<RunId> {
    if |list| < cap then {} else {([id] + list)[|list|]}
  }

  /** Pushing an id onto a bounded list of distinct ids: who is in it afterwards. */
  lemma PushedHolds(log: seq<RunId>, cap: nat, id: RunId, x: RunId)
    requires Distinct(log) && id !in log
    ensures var list := Take(log, cap);
            && Take([id] + log, cap) == Pushed(list, cap, id)
            && (x in Take([id] + log, cap) <==> (x == id || x in list) && x !in PushedOut(list, cap, id))
            && PushedOut(list, cap, id) <= (set y | y in log) + {id}
  {
    var list, longer := Take(log, cap), [id] + log;
    var pushed := Take(longer, cap);
    assert Distinct(longer) by {
      forall i, j | 0 <= i < j < |longer|
        ensures longer[i] != longer[j]
      {
        assert longer[j] == log[j - 1] && log[j - 1] in log;
      }
    }
    assert pushed == Pushed(list, cap, id);
    var all := [id] + list;
    assert all == longer[..|all|];
    assert x in all <==> x == id || x in list;
    if |list| >= cap {
      assert pushed == all[..|list|] && all == pushed + [all[|list|]];
      assert x in all <==> x in pushed || x == all[|list|];
      assert all[|list|] !in pushed;
    } else {
      assert pushed == all;
    }
  }

  /** Adding a run pushes nothing out of another job's list. */
  lemma NotPushedOutOfAnother(h: seq<Op>, cap: nat, run: JobRun, j: string, x: RunId)
    requires FreshAdds(h) && !WasAdded(h, run.id) && j != run.jobName && x in Log(h, j)
    ensures x != run.id && x !in PushedOut(Take(Log(h, run.jobName), cap), cap, run.id)
  {
    var log := Log(h, run.jobName);
    LogIsDistinct(h, run.jobName);
    NotAddedNotLogged(h, run.jobName, run.id);
    NotAddedNotLogged(h, j, run.id);
    PushedHolds(log, cap, run.id, x);
    if x in log {
      OneJobPerRun(h, j, run.jobName, x);
    }
  }

  lemma ListedOnlyIf(h: seq<Op>, cap: nat, run: JobRun, x: RunId)
    requires FreshAdds(h) && !WasAdded(h, run.id) && Listed(h + [Added(run)], cap, x)
    ensures x == run.id || Listed(h, cap, x)
    ensures x !in PushedOut(Take(Log(h, run.jobName), cap), cap, run.id)
  {
    var j :| ListedIn(h + [Added(run)], cap, j, x);
    LogAfter(h, Added(run), j);
    if j == run.jobName {
      LogIsDistinct(h, j);
      NotAddedNotLogged(h, j, run.id);
      PushedHolds(Log(h, j), cap, run.id, x);
      assert x != run.id ==> ListedIn(h, cap, j, x);
    } else {
      assert ListedIn(h, cap, j, x);
      NotPushedOutOfAnother(h, cap, run, j, x);
    }
  }

  lemma ListedIf(h: seq<Op>, cap: nat, run: JobRun, x: RunId)
    requires FreshAdds(h) && !WasAdded(h, run.id)
    requires x == run.id || Listed(h, cap, x)
    requires x !in PushedOut(Take(Log(h, run.jobName), cap), cap, run.id)
    ensures Listed(h + [Added(run)], cap, x)
  {
    var job := run.jobName;
    LogAfter(h, Added(run), job);
    LogIsDistinct(h, job);
    NotAddedNotLogged(h, job, run.id);
    PushedHolds(Log(h, job), cap, run.id, x);
    if x != run.id {
      var j :| ListedIn(h, cap, j, x);
      LogAfter(h, Added(run), j);
      assert ListedIn(h + [Added(run)], cap, j, x);
    } else {
      assert ListedIn(h + [Added(run)], cap, job, x);
    }
  }

  lemma ListedAfterAdd(h: seq<Op>, cap: nat, run: JobRun, x: RunId)
    requires FreshAdds(h) && !WasAdded(h, run.id)
    ensures Listed(h + [Added(run)], cap, x)
            <==> (x == run.id || Listed(h, cap, x)) && x !in PushedOut(Take(Log(h, run.jobName), cap), cap, run.id)
  {
    if Listed(h + [Added(run)], cap, x) {
      ListedOnlyIf(h, cap, run, x);
    } else if (x == run.id || Listed(h, cap, x)) && x !in PushedOut(Take(Log(h, run.jobName), cap), cap, run.id) {
      ListedIf(h, cap, run, x);
    }
  }

  lemma NotAddedNotLogged(h: seq<Op>, job: string, id: RunId)
    requires !WasAdded(h, id)
    ensures id !in Log(h, job)
  {
    if id in Log(h, job) {
      var i := LoggedWasAdded(h, job, id);
    }
  }

  lemma FreshAfterAdd(h: seq<Op>, run: JobRun)
    requires FreshAdds(h) && !WasAdded(h, run.id)
    ensures FreshAdds(h + [Added(run)])
  {
    assert forall i | 0 <= i < |h| && h[i].Added? :: AddsAt(h, i, h[i].run.id);
  }

  lemma PushTakes(log: seq<RunId>, cap: nat, id: RunId)
    ensures Pushed(Take(log, cap), cap, id) == Take([id] + log, cap)
  {
  }

  lemma AddKeepsLists(h: seq<Op>, cap: nat, byJob: map<string, seq<RunId>>, run: JobRun)
    requires FreshAdds(h) && !WasAdded(h, run.id) && ListsMatch(h, cap, byJob)
    ensures ListsMatch(h + [Added(run)], cap, byJob[run.jobName := Pushed(ListFor(byJob, run.jobName), cap, run.id)])
  {
    var after := byJob[run.jobName := Pushed(ListFor(byJob, run.jobName), cap, run.id)];
    forall job
      ensures ListOf(h + [Added(run)], cap, after, job)
    {
      assert ListOf(h, cap, byJob, job);
      LogAfter(h, Added(run), job);
      if job == run.jobName {
        PushTakes(Log(h, job), cap, run.id);
      }
    }
  }

  lemma AddKeepsLookup(h: seq<Op>, cap: nat, byId: map<RunId, JobRun>, run: JobRun)
    requires FreshAdds(h) && !WasAdded(h, run.id) && LookupMatches(h, cap, byId)
    ensures LookupMatches(h + [Added(run)], cap,
                          byId[run.id := run] - PushedOut(Take(Log(h, run.jobName), cap), cap, run.id))
  {
    var g, list := h + [Added(run)], Take(Log(h, run.jobName), cap);
    var after := byId[run.id := run] - PushedOut(list, cap, run.id);
    forall id
      ensures LookupOf(g, cap, after, id)
    {
      assert LookupOf(h, cap, byId, id);
      LogAfter(h, Added(run), "");
      ListedAfterAdd(h, cap, run, id);
      StrayAfterAdd(h, cap, run, id);
      if id in PushedOut(list, cap, run.id) && id != run.id {
        assert ListedIn(h, cap, run.jobName, id);
        ListedIsNotStray(h, cap, id);
      }
    }
  }

  // ---- the store ----

  class InMemoryJobRunStore {
    const maxPerJob: nat
    var byId: map<RunId, JobRun>
    var byJob: map<string, seq<RunId>>
    ghost var history: seq<Op>

    ghost predicate Valid()
      reads this
    {
      && FreshAdds(history)
      && ListsMatch(history, maxPerJob, byJob)
      && LookupMatches(history, maxPerJob, byId)
    }

    constructor (maxPerJob: nat)
      ensures Valid() && history == [] && this.maxPerJob == maxPerJob
    {
      this.maxPerJob := maxPerJob;
      byId, byJob, history := map[], map[], [];
    }

    method Add(run: JobRun)
      requires Valid() && !WasAdded(history, run.id)
      modifies this
      ensures Valid() && history == old(history) + [Added(run)]
    {
      ghost var before := byJob;
      assert ListOf(history, maxPerJob, byJob, run.jobName);
      byId := byId[run.id := run];
      var list := ListFor(byJob, run.jobName);
      ghost var old_ := list;
      list := [run.id] + list;
      while |list| > maxPerJob
        invariant byJob == before && history == old(history)
        invariant old_ == ListFor(before, run.jobName) && |old_| <= maxPerJob
        invariant (list == [run.id] + old_ && byId == old(byId)[run.id := run])
                  || (|old_| == maxPerJob && list == Pushed(old_, maxPerJob, run.id)
                      && byId == old(byId)[run.id := run] - PushedOut(old_, maxPerJob, run.id))
        decreases |list|
      {
        var drop := list[|list| - 1];
        list := list[..|list| - 1];
        byId := byId - {drop};
      }
      byJob := byJob[run.jobName := list];
      FreshAfterAdd(history, run);
      AddKeepsLists(history, maxPerJob, before, run);
      AddKeepsLookup(history, maxPerJob, old(byId), run);
      history := history + [Added(run)];
      assert list == Pushed(old_, maxPerJob, run.id);
      assert byId == old(byId)[run.id := run] - PushedOut(old_, maxPerJob, run.id);
    }

    method Update(run: JobRun)
      requires Valid()
      modifies this`byId, this`history
      ensures Valid() && history == old(history) + [Updated(run)]
    {
      UpdateKeepsMatch(history, maxPerJob, byJob, byId, run);
      byId := byId[run.id := run];
      history := history + [Updated(run)];
      FreshAfterUpdate(old(history), run);
    }

    method Get(id: RunId) returns (run: Option<JobRun>)
      requires Valid()
      ensures run == if Listed(history, maxPerJob, id) || Stray(history, maxPerJob, id)
                     then Latest(history, id) else None
    {
      assert LookupOf(history, maxPerJob, byId, id);
      run := if id in byId then Some(byId[id]) else None;
    }

    /** The newest runs of a job: none is ever missing from the lookup. */
    method GetRecentForJob(job: string, take: int) returns (runs: seq<JobRun>)
      requires Valid()
      ensures var ids := Take(Take(Log(history, job), maxPerJob), take);
              && |runs| == |ids|
              && forall i | 0 <= i < |ids| :: Latest(history, ids[i]) == Some(runs[i])
    {
      var snapshot := Take(ListFor(byJob, job), take);
      ListedRunsResolve(history, maxPerJob, byJob, byId, job);
      runs := Fetch(history, byId, snapshot);
    }

    static method Fetch(ghost history: seq<Op>, byId: map<RunId, JobRun>, snapshot: seq<RunId>)
      returns (runs: seq<JobRun>)
      requires Resolve(history, snapshot, byId)
      ensures |runs| == |snapshot|
      ensures forall i | 0 <= i < |snapshot| :: Latest(history, snapshot[i]) == Some(runs[i])
    {
      runs := [];
      for i := 0 to |snapshot|
        invariant |runs| == i
        invariant forall k | 0 <= k < i :: runs[k] == byId[snapshot[k]]
      {
        var id := snapshot[i];
        if id in byId {
          runs := runs + [byId[id]];
        }
      }
    }

    method CountInFlight(job: string) returns (count: nat)
      requires Valid()
      ensures count == RunningAmong(history, Take(Log(history, job), maxPerJob))
    {
      var snapshot := ListFor(byJob, job);
      ListedRunsResolve(history, maxPerJob, byJob, byId, job);
      count := 0;
      for i := 0 to |snapshot|
        invariant count == RunningAmong(history, snapshot[..i])
      {
        var id := snapshot[i];
        assert snapshot[..i + 1][..i] == snapshot[..i];
        if id in byId && byId[id].state == Running {
          count := count + 1;
        }
      }
      assert snapshot[..|snapshot|] == snapshot;
    }
  }

  /** Each of the runs is in the lookup, with its latest value. */
  ghost predicate Resolve(h: seq<Op>, ids: seq<RunId>, byId: map<RunId, JobRun>) {
    forall k | 0 <= k < |ids| :: ids[k] in byId && Latest(h, ids[k]) == Some(byId[ids[k]])
  }

  /** Every listed run resolves. */
  lemma ListedRunsResolve(h: seq<Op>, cap: nat, byJob: map<string, seq<RunId>>, byId: map<RunId, JobRun>, job: string)
    requires ListsMatch(h, cap, byJob) && LookupMatches(h, cap, byId)
    ensures ListFor(byJob, job) == Take(Log(h, job), cap) && Resolve(h, ListFor(byJob, job), byId)
  {
    var list := ListFor(byJob, job);
    assert ListOf(h, cap, byJob, job);
    forall k | 0 <= k < |list|
      ensures list[k] in byId && Latest(h, list[k]) == Some(byId[list[k]])
    {
      assert ListedIn(h, cap, job, list[k]);
      assert LookupOf(h, cap, byId, list[k]);
    }
  }

  function RunningAmong(h: seq<Op>, ids: seq<RunId>): nat {
    if ids == [] then 0
    else
      var last := Latest(h, ids[|ids| - 1]);
      RunningAmong(h, ids[..|ids| - 1]) + (if last.Some? && last.value.state == Running then 1 else 0)
  }

  ghost function RunningIds(h: seq<Op>, ids: seq<RunId>): set<RunId> {
    set id | id in ids && Latest(h, id).Some? && Latest(h, id).value.state == JobRuns.Running
  }

  lemma {:induction false} RunningIdsCounted(h: seq<Op>, ids: seq<RunId>)
    requires Distinct(ids)
    ensures RunningAmong(h, ids) == |RunningIds(h, ids)|
  {
    if ids == [] {
      assert RunningIds(h, ids) == {};
    } else {
      var n := |ids| - 1;
      RunningIdsCounted(h, ids[..n]);
      OneMoreRunning(h, ids[..n], ids[n]);
      assert ids == ids[..n] + [ids[n]];
    }
  }

  lemma OneMoreRunning(h: seq<Op>, ids: seq<RunId>, id: RunId)
    requires id !in ids
    ensures var one := if Latest(h, id).Some? && Latest(h, id).value.state == JobRuns.Running then 1 else 0;
            |RunningIds(h, ids + [id])| == |RunningIds(h, ids)| + one
  {
    var before := RunningIds(h, ids);
    if Latest(h, id).Some? && Latest(h, id).value.state == JobRuns.Running {
      assert RunningIds(h, ids + [id]) == before + {id};
    } else {
      assert RunningIds(h, ids + [id]) == before;
    }
  }

  /** The count is the number of runs among them that are running. */
  lemma RunningAmongCounts(h: seq<Op>, ids: seq<RunId>) returns (running: set<RunId>)
    requires Distinct(ids)
    ensures forall id :: id in running <==>
              id in ids && Latest(h, id).Some? && Latest(h, id).value.state == JobRuns.Running
    ensures RunningAmong(h, ids) == |running|
  {
    RunningIdsCounted(h, ids);
    running := RunningIds(h, ids);
  }

  /** The latest value of a run is the one in the last operation on it. */
  lemma {:induction false} LatestIsLast(h: seq<Op>, id: RunId, i: nat)
    requires i < |h| && h[i].run.id == id && forall j | i < j < |h| :: h[j].run.id != id
    ensures Latest(h, id) == Some(h[i].run)
  {
    if i < |h| - 1 {
      LatestIsLast(h[..|h| - 1], id, i);
    }
  }

  lemma {:induction false} NoneIfNeverSeen(h: seq<Op>, id: RunId)
    requires forall i | 0 <= i < |h| :: h[i].run.id != id
    ensures Latest(h, id) == None
  {
    if h != [] {
      NoneIfNeverSeen(h[..|h| - 1], id);
    }
  }

  /** A log lists the runs added for its job, later ones in front of earlier ones. */
  lemma {:induction false} LogIsNewestFirst(h: seq<Op>, job: string, a: nat, b: nat)
    requires FreshAdds(h) && a < b < |h| && h[a].Added? && h[b].Added? && h[a].run.jobName == h[b].run.jobName == job
    ensures exists p, q :: 0 <= p < q < |Log(h, job)| && Log(h, job)[p] == h[b].run.id && Log(h, job)[q] == h[a].run.id
  {
    var n := |h| - 1;
    var rest := Log(h[..n], job);
    if b < n {
      LogIsNewestFirst(h[..n], job, a, b);
      var p, q :| 0 <= p < q < |rest| && rest[p] == h[b].run.id && rest[q] == h[a].run.id;
      var shift := |Log(h, job)| - |rest|;
      assert Log(h, job)[p + shift] == rest[p] && Log(h, job)[q + shift] == rest[q];
    } else {
      AddedIsLogged(h[..n], a);
      var q :| 0 <= q < |rest| && rest[q] == h[a].run.id;
      assert Log(h, job)[0] == h[b].run.id && Log(h, job)[q + 1] == rest[q];
    }
  }

  /** The first `n`, or all if there are no more. */
  lemma TakeIsFirst<T>(s: seq<T>, n: int)
    ensures |Take(s, n)| == (if n <= 0 then 0 else if n < |s| then n else |s|)
    ensures Take(s, n) <= s
  {
  }

  lemma FreshAfterUpdate(h: seq<Op>, run: JobRun)
    requires FreshAdds(h)
    ensures FreshAdds(h + [Updated(run)])
  {
  }

  /** Runs in the lookup but in no list are exactly those updated after they had left their list. */
  lemma StrayIffUpdatedAfterEviction(h: seq<Op>, cap: nat, id: RunId, a: nat)
    requires FreshAdds(h) && AddsAt(h, a, id)
    ensures Stray(h, cap, id)
            <==> exists i :: a < i < |h| && h[i].Updated? && h[i].run.id == id && !Listed(h[..i], cap, id)
  {
    if Stray(h, cap, id) {
      var i :| StrayAt(h, cap, id, i);
      assert a < i;
    }
    if i :| a < i < |h| && h[i].Updated? && h[i].run.id == id && !Listed(h[..i], cap, id) {
      assert StrayAt(h, cap, id, i);
    }
  }
}
