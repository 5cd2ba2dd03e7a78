/** Executor, reporter and dashboard together: any interleaving of executions, cut into any batches. */
module RunToDashboard {
  import opened JobRuns
  import Executor
  import opened Ingest
  import opened Reporting

  /** What the executors of one host reported is what left in batches, then what is still queued. */
  ghost predicate Reported(h: Executor.Host, nodeId: string, sent: seq<Sent>, channel: seq<Record>) {
    Flattened(sent) + channel == ToRecords(h.reports, nodeId)
  }

  lemma {:induction false} ReportIsOfItsRun(reports: seq<JobRun>, k: nat)
    requires k < |reports|
    ensures reports[k] in Executor.ReportsOf(reports, reports[k].id)
  {
    if k < |reports| - 1 {
      ReportIsOfItsRun(reports[..|reports| - 1], k);
    }
  }

  lemma {:induction false} NewestReport(reports: seq<JobRun>, k: nat)
    requires k < |reports| && forall j | k < j < |reports| :: reports[j].id != reports[k].id
    ensures var mine := Executor.ReportsOf(reports, reports[k].id); mine != [] && mine[|mine| - 1] == reports[k]
  {
    if k < |reports| - 1 {
      NewestReport(reports[..|reports| - 1], k);
    }
  }

  /** The reports of a reachable host only ever grow. */
  lemma HostReportsGrow(catches: bool, events: seq<Executor.Event>)
    ensures AllGrow(Executor.Run(catches, events).reports)
  {
    var reports := Executor.Run(catches, events).reports;
    forall i, j | 0 <= i < j < |reports| && reports[i].id == reports[j].id
      ensures Grows(reports[i], reports[j])
    {
      Executor.InterleavedReportsGrow(catches, events, i, j);
    }
  }

  /** Whatever was lost on the way, a row belongs to an execution and shows one of the snapshots that
      execution has published. */
  lemma RowShowsSomeSnapshot(catches: bool, events: seq<Executor.Event>, nodeId: string, project: nat,
                             sent: seq<Sent>, channel: seq<Record>, id: RunId)
    requires Reported(Executor.Run(catches, events), nodeId, sent, channel) && id in TableAfter(project, sent)
    ensures var h := Executor.Run(catches, events);
            var mine := Executor.ReportsOf(h.reports, id);
            && id in h.executions
            && exists j :: 0 <= j < |mine| && Shows(TableAfter(project, sent)[id], ToRecord(mine[j], nodeId))
  {
    var h := Executor.Run(catches, events);
    HostReportsGrow(catches, events);
    DashboardShowsPublished(h.reports, nodeId, project, sent, channel, id);
    var k :| 0 <= k < |h.reports| && h.reports[k].id == id
             && Shows(TableAfter(project, sent)[id], ToRecord(h.reports[k], nodeId));
    ReportIsOfItsRun(h.reports, k);
    Executor.ReportedRunsExist(catches, events, k);
  }

  lemma {:induction false} AllDelivered(sent: seq<Sent>)
    requires forall i | 0 <= i < |sent| :: sent[i].delivered
    ensures Delivered(sent) == Flattened(sent)
  {
    if sent != [] {
      AllDelivered(sent[..|sent| - 1]);
    }
  }

  /** Reports delivered in full are in the table, newest last. */
  lemma NewestReportShown(reports: seq<JobRun>, nodeId: string, project: nat, sent: seq<Sent>, k: nat)
    requires k < |reports| && forall j | k < j < |reports| :: reports[j].id != reports[k].id
    requires AllGrow(reports)
    requires Flattened(sent) == ToRecords(reports, nodeId) && forall i | 0 <= i < |sent| :: sent[i].delivered
    ensures reports[k].id in TableAfter(project, sent)
    ensures Shows(TableAfter(project, sent)[reports[k].id], ToRecord(reports[k], nodeId))
  {
    AllDelivered(sent);
    assert LastOf(Delivered(sent), reports[k].id, k);
    ReportsGrow(reports, nodeId);
    RowShowsLastDelivered(project, sent, reports[k].id);
  }

  /** With nothing lost and nothing queued every run has its row, the row shows the newest snapshot, and a
      finished run's row says how the run ended. */
  lemma NothingLostShowsOutcome(catches: bool, events: seq<Executor.Event>, nodeId: string, project: nat,
                                sent: seq<Sent>, id: RunId)
    requires Reported(Executor.Run(catches, events), nodeId, sent, [])
    requires forall i | 0 <= i < |sent| :: sent[i].delivered
    requires id in Executor.Run(catches, events).executions
    ensures var h := Executor.Run(catches, events);
            var x, mine := h.executions[id], Executor.ReportsOf(h.reports, id);
            && mine != [] && id in TableAfter(project, sent)
            && Shows(TableAfter(project, sent)[id], ToRecord(mine[|mine| - 1], nodeId))
            && (x.at in {Executor.Stamped, Executor.Left} ==>
                  && TableAfter(project, sent)[id].state == Executor.Outcome(catches, x.met)
                  && TableAfter(project, sent)[id].finishedAt.Some?)
  {
    var h := Executor.Run(catches, events);
    Executor.EveryRunKeepsItsLifecycle(catches, events, id);
    HostReportsGrow(catches, events);
    var k := LastReport(h.reports, id);
    NewestReport(h.reports, k);
    NewestReportShown(h.reports, nodeId, project, sent, k);
  }

  lemma {:induction false} LastReport(reports: seq<JobRun>, id: RunId) returns (k: nat)
    requires Executor.ReportsOf(reports, id) != []
    ensures k < |reports| && reports[k].id == id && forall j | k < j < |reports| :: reports[j].id != id
  {
    if reports[|reports| - 1].id == id {
      k := |reports| - 1;
    } else {
      k := LastReport(reports[..|reports| - 1], id);
    }
  }
}
