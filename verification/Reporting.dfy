/** From executor reports to dashboard rows: a queue, batches of bounded size, and a network that may
    drop any of them. A batch is sent once and never again. */
module Reporting {
  import opened Options
  import opened JobRuns
  import opened Ingest

  const MAX_BATCH := 100

  function ToRecord(run: JobRun, nodeId: string): Record {
    Record(Some(run.id), run.jobName, nodeId, run.state, run.triggerSource,
           if run.errorMessage.Some? then run.errorMessage.value else "",
           if run.errorStackTrace.Some? then run.errorStackTrace.value else "",
           Some(run.createdAt), run.startedAt, run.finishedAt)
  }

  function ToRecords(runs: seq<JobRun>, nodeId: string): seq<Record> {
    seq(|runs|, i requires 0 <= i < |runs| => ToRecord(runs[i], nodeId))
  }

  /** A batch that left the queue, and whether it reached the dashboard's table. */
  datatype Sent = Sent(records: seq<Record>, delivered: bool, at: Time)

  ghost function Flattened(sent: seq<Sent>): seq<Record> {
    if sent == [] then [] else Flattened(sent[..|sent| - 1]) + sent[|sent| - 1].records
  }

  ghost function Delivered(sent: seq<Sent>): seq<Record> {
    if sent == [] then []
    else Delivered(sent[..|sent| - 1]) + (if sent[|sent| - 1].delivered then sent[|sent| - 1].records else [])
  }

  ghost function TableAfter(project: nat, sent: seq<Sent>): Table {
    if sent == [] then map[]
    else
      var before := TableAfter(project, sent[..|sent| - 1]);
      var last := sent[|sent| - 1];
      if last.delivered then AllUpserted(before, project, last.records, last.at) else before
  }

  /** How a send can end. A lost reply means the dashboard did commit; the reporter cannot tell. */
  datatype SendResult = Acknowledged | NeverArrived | ReplyLost

  /** Nothing is lost, repeated or reordered between reporting and sending. */
  ghost predicate Accounted(project: nat, reported: seq<Record>, sent: seq<Sent>, channel: seq<Record>, table: Table) {
    reported == Flattened(sent) + channel && table == TableAfter(project, sent)
  }

  class Reporter {
    const nodeId: string
    const project: nat
    const dashboard: IngestService
    var channel: seq<Record>
    ghost var reported: seq<Record>
    ghost var sent: seq<Sent>

    ghost predicate Valid()
      reads this, dashboard
    {
      Accounted(project, reported, sent, channel, dashboard.runs)
    }

    constructor (nodeId: string, project: nat, dashboard: IngestService)
      requires dashboard.runs == map[]
      ensures Valid() && reported == [] && channel == [] && sent == []
      ensures this.nodeId == nodeId && this.project == project && this.dashboard == dashboard
    {
      this.nodeId, this.project, this.dashboard := nodeId, project, dashboard;
      channel, reported, sent := [], [], [];
    }

    /** Queue a snapshot of the run as it is now. */
    method ReportRun(run: JobRun)
      requires Valid()
      modifies this`channel, this`reported
      ensures Valid()
      ensures channel == old(channel) + [ToRecord(run, nodeId)]
      ensures reported == old(reported) + [ToRecord(run, nodeId)] && sent == old(sent)
    {
      channel := channel + [ToRecord(run, nodeId)];
      reported := reported + [ToRecord(run, nodeId)];
    }

    /** One round of the flush loop: take at most one batch, oldest first, and send it. */
    method FlushOnce(result: SendResult, now: Time)
      requires Valid()
      modifies this`channel, this`sent, dashboard`runs
      ensures Valid() && reported == old(reported)
      ensures var n := if |old(channel)| < 100 then |old(channel)| else 100;
              && channel == old(channel)[n..]
              && sent == if n == 0 then old(sent)
                         else old(sent) + [Sent(old(channel)[..n], result != NeverArrived, now)]
    {
      ghost var queued, table := channel, dashboard.runs;
      var batch := TakeBatch();
      assert queued == batch + channel;
      if batch != [] {
        ghost var last := Sent(batch, result != NeverArrived, now);
        if result != NeverArrived {
          dashboard.SendRuns(project, batch, now);
        }
        SentOneMore(project, reported, sent, queued, table, last, channel);
        sent := sent + [last];
      }
    }

    /** Drain the queue into one batch. */
    method TakeBatch() returns (batch: seq<Record>)
      modifies this`channel
      ensures var n := if |old(channel)| < MAX_BATCH then |old(channel)| else MAX_BATCH;
              batch == old(channel)[..n] && channel == old(channel)[n..]
      ensures batch + channel == old(channel)
    {
      batch := [];
      while |batch| < MAX_BATCH && channel != []
        invariant batch + channel == old(channel) && |batch| <= MAX_BATCH
        decreases |channel|
      {
        batch := batch + [channel[0]];
        channel := channel[1..];
      }
    }
  }

  lemma SentOneMore(project: nat, reported: seq<Record>, sent: seq<Sent>, queued: seq<Record>, table: Table,
                    last: Sent, rest: seq<Record>)
    requires Accounted(project, reported, sent, queued, table) && queued == last.records + rest
    ensures Accounted(project, reported, sent + [last], rest,
                      if last.delivered then AllUpserted(table, project, last.records, last.at) else table)
  {
    assert (sent + [last])[..|sent|] == sent;
  }

  // ---- whichever batches are lost ----

  ghost predicate Among(a: seq<Record>, b: seq<Record>) {
    forall i | 0 <= i < |a| :: a[i] in b
  }

  /** If a stream grows, so does any stream made of some of its earlier records and the same ending. */
  lemma GrowingSelection(all: seq<Record>, some: seq<Record>, batch: seq<Record>)
    requires Growing(all + batch) && Growing(some) && Among(some, all)
    ensures Growing(some + batch)
  {
    var s, t := some + batch, all + batch;
    forall i | 0 <= i < |s|
      ensures s[i].createdAt.Some?
    {
      if i >= |some| {
        assert s[i] == t[|all| + i - |some|];
      }
    }
    forall i, j | 0 <= i < j < |s| && SameRun(s[i], s[j])
      ensures RecordGrows(s[i], s[j])
    {
      if j < |some| {
        assert SameRun(some[i], some[j]);
      } else {
        var q := |all| + j - |some|;
        assert s[j] == t[q];
        var p: int;
        if i < |some| {
          assert some[i] in all;
          p :| 0 <= p < |all| && all[p] == some[i];
        } else {
          p := |all| + i - |some|;
        }
        assert t[p] == s[i];
        assert SameRun(t[p], t[q]);
      }
    }
  }

  lemma {:induction false} DeliveredMirrored(project: nat, sent: seq<Sent>)
    requires Growing(Flattened(sent))
    ensures Growing(Delivered(sent)) && Among(Delivered(sent), Flattened(sent))
    ensures Mirrors(TableAfter(project, sent), Delivered(sent))
  {
    if sent != [] {
      var n := |sent| - 1;
      var last := sent[n];
      GrowingPrefix(Flattened(sent), |Flattened(sent[..n])|);
      assert Flattened(sent)[..|Flattened(sent[..n])|] == Flattened(sent[..n]);
      DeliveredMirrored(project, sent[..n]);
      if last.delivered {
        GrowingSelection(Flattened(sent[..n]), Delivered(sent[..n]), last.records);
        BatchKeepsMirror(TableAfter(project, sent[..n]), Delivered(sent[..n]), project, last.records, last.at);
      } else {
        assert Delivered(sent) == Delivered(sent[..n]);
      }
    }
  }

  /** However the stream was cut into batches and whichever of them were lost, a run is in the table
      exactly if some record of it was delivered, and its row shows the last one that was. */
  lemma RowShowsLastDelivered(project: nat, sent: seq<Sent>, id: RunId)
    requires Growing(Flattened(sent))
    ensures id in TableAfter(project, sent) ==> exists i :: LastOf(Delivered(sent), id, i)
    ensures (exists i :: LastOf(Delivered(sent), id, i)) ==> id in TableAfter(project, sent)
    ensures forall i | LastOf(Delivered(sent), id, i) ::
              id in TableAfter(project, sent) && Shows(TableAfter(project, sent)[id], Delivered(sent)[i])
  {
    DeliveredMirrored(project, sent);
    var stream := Delivered(sent);
    if id in TableAfter(project, sent) {
      var i :| LastOf(stream, id, i) && Shows(TableAfter(project, sent)[id], stream[i]);
    }
    if exists i :: LastOf(stream, id, i) {
      var i :| LastOf(stream, id, i);
      assert stream[i].id.value in TableAfter(project, sent);
    }
    forall i | LastOf(stream, id, i)
      ensures id in TableAfter(project, sent) && Shows(TableAfter(project, sent)[id], stream[i])
    {
      assert stream[i].id.value in TableAfter(project, sent);
      var j :| LastOf(stream, id, j) && Shows(TableAfter(project, sent)[id], stream[j]);
      assert i == j;
    }
  }

  ghost predicate Stamped(records: seq<Record>) {
    forall i | 0 <= i < |records| :: records[i].createdAt.Some?
  }

  /** Batching is the same as applying the delivered records one by one, apart from the receive time. */
  lemma {:induction false} BatchingDoesNotMatter(project: nat, sent: seq<Sent>, now: Time)
    requires forall i | 0 <= i < |sent| :: Stamped(sent[i].records)
    ensures Strip(TableAfter(project, sent)) == Strip(AllUpserted(map[], project, Delivered(sent), now))
  {
    if sent != [] {
      var n := |sent| - 1;
      var last := sent[n];
      BatchingDoesNotMatter(project, sent[..n], now);
      if last.delivered {
        assert Stamped(last.records);
        ReceiveTimeIsAside(TableAfter(project, sent[..n]), AllUpserted(map[], project, Delivered(sent[..n]), now),
                           project, last.records, last.at, now);
        UpsertsConcatenate(map[], project, Delivered(sent[..n]), last.records, now);
      } else {
        assert Delivered(sent) == Delivered(sent[..n]);
      }
    }
  }

  /** What a row that shows a run's record says of the run: every field is the run's, and an empty error text
      reads as none. */
  lemma RowSaysRun(row: Row, run: JobRun, nodeId: string)
    requires Shows(row, ToRecord(run, nodeId))
    ensures row.jobName == run.jobName && row.nodeId == nodeId && row.triggerSource == run.triggerSource
    ensures row.createdAt == run.createdAt && row.startedAt == run.startedAt && row.finishedAt == run.finishedAt
    ensures row.state == run.state
    ensures row.errorMessage == (if run.errorMessage == Some("") then None else run.errorMessage)
    ensures row.errorStackTrace == (if run.errorStackTrace == Some("") then None else run.errorStackTrace)
  {
  }

  /** The first record of a run makes a row of its project that says so. */
  lemma FirstRecordMakesRow(table: Table, project: nat, run: JobRun, nodeId: string, now: Time)
    requires run.id !in table
    ensures var after := AllUpserted(table, project, [ToRecord(run, nodeId)], now);
            && after.Keys == table.Keys + {run.id} && after[run.id].project == project
            && after[run.id].receivedAt == now
            && Shows(after[run.id], ToRecord(run, nodeId))
  {
    var records := [ToRecord(run, nodeId)];
    assert records[..0] == [];
  }

  /** Reports that only grow become a stream of records that only grows. */
  lemma ReportsGrow(runs: seq<JobRun>, nodeId: string)
    requires AllGrow(runs)
    ensures Growing(ToRecords(runs, nodeId))
  {
    var stream := ToRecords(runs, nodeId);
    forall i, j | 0 <= i < j < |stream| && SameRun(stream[i], stream[j])
      ensures RecordGrows(stream[i], stream[j])
    {
      assert Grows(runs[i], runs[j]);
    }
  }

  /** From the executor's reports to the dashboard: with the reports cut into batches in any way, some of
      them lost and some still queued, a row shows a snapshot its executor really published, and it is
      the last one that arrived. */
  lemma DashboardShowsPublished(runs: seq<JobRun>, nodeId: string, project: nat, sent: seq<Sent>,
                                  channel: seq<Record>, id: RunId)
    requires AllGrow(runs)
    requires Flattened(sent) + channel == ToRecords(runs, nodeId)
    requires id in TableAfter(project, sent)
    ensures exists i, k :: LastOf(Delivered(sent), id, i) && 0 <= k < |runs|
              && Delivered(sent)[i] == ToRecord(runs[k], nodeId) && runs[k].id == id
              && Shows(TableAfter(project, sent)[id], ToRecord(runs[k], nodeId))
  {
    ReportsGrow(runs, nodeId);
    assert ToRecords(runs, nodeId)[..|Flattened(sent)|] == Flattened(sent);
    GrowingPrefix(ToRecords(runs, nodeId), |Flattened(sent)|);
    RowShowsLastDelivered(project, sent, id);
    DeliveredMirrored(project, sent);
    var i :| LastOf(Delivered(sent), id, i);
    assert Delivered(sent)[i] in Flattened(sent);
    var k :| 0 <= k < |Flattened(sent)| && Flattened(sent)[k] == Delivered(sent)[i];
    assert ToRecords(runs, nodeId)[k] == ToRecord(runs[k], nodeId);
  }
}
