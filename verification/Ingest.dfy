/** The dashboard's table of runs, fed by batches of run records. */
module Ingest {
  import opened Options
  import opened JobRuns

  /** A record on the wire: missing texts travel as "", missing times as absent. An id that does not
      parse is `None`. */
  datatype Record = Record(
    id: Option<RunId>, jobName: string, nodeId: string, state: RunState, triggerSource: string,
    errorMessage: string, errorStackTrace: string,
    createdAt: Option<Time>, startedAt: Option<Time>, finishedAt: Option<Time>)

  datatype Row = Row(
    project: nat, jobName: string, nodeId: string, createdAt: Time, startedAt: Option<Time>, finishedAt: Option<Time>,
    state: RunState, triggerSource: string, errorMessage: Option<string>, errorStackTrace: Option<string>,
    receivedAt: Time)

  type Table = map<RunId, Row>

  function NullIfEmpty(s: string): Option<string> {
    if s == "" then None else Some(s)
  }

  function OrElse<T>(a: Option<T>, b: Option<T>): Option<T> {
    if a.Some? then a else b
  }

  function Inserted(project: nat, r: Record, now: Time): Row {
    Row(project, r.jobName, r.nodeId, if r.createdAt.Some? then r.createdAt.value else now, r.startedAt, r.finishedAt,
        r.state, r.triggerSource, NullIfEmpty(r.errorMessage), NullIfEmpty(r.errorStackTrace), now)
  }

  function Merged(row: Row, r: Record, now: Time): Row {
    row.(jobName := r.jobName, nodeId := r.nodeId,
         startedAt := OrElse(r.startedAt, row.startedAt), finishedAt := OrElse(r.finishedAt, row.finishedAt),
         state := r.state, triggerSource := r.triggerSource,
         errorMessage := OrElse(NullIfEmpty(r.errorMessage), row.errorMessage),
         errorStackTrace := OrElse(NullIfEmpty(r.errorStackTrace), row.errorStackTrace),
         receivedAt := now)
  }

  function Upserted(table: Table, project: nat, r: Record, now: Time): Table {
    if r.id.None? then table
    else
      var id := r.id.value;
      table[id := if id in table then Merged(table[id], r, now) else Inserted(project, r, now)]
  }

  function AllUpserted(table: Table, project: nat, records: seq<Record>, now: Time): Table {
    if records == [] then table
    else Upserted(AllUpserted(table, project, records[..|records| - 1], now), project, records[|records| - 1], now)
  }

  class IngestService {
    var runs: Table

    constructor ()
      ensures runs == map[]
    {
      runs := map[];
    }

    /** One batch: each record is inserted, or merged field by field into the row it finds. */
    method SendRuns(project: nat, batch: seq<Record>, now: Time)
      modifies this`runs
      ensures runs == AllUpserted(old(runs), project, batch, now)
    {
      for i := 0 to |batch|
        invariant runs == AllUpserted(old(runs), project, batch[..i], now)
      {
        var r := batch[i];
        assert batch[..i + 1][..i] == batch[..i];
        if r.id.Some? {
          var id := r.id.value;
          if id !in runs {
            runs := runs[id := Row(
              project, r.jobName, r.nodeId, if r.createdAt.Some? then r.createdAt.value else now,
              r.startedAt, r.finishedAt, r.state, r.triggerSource,
              NullIfEmpty(r.errorMessage), NullIfEmpty(r.errorStackTrace), now)];
          } else {
            var existing := runs[id];
            existing := existing.(jobName := r.jobName, nodeId := r.nodeId);
            existing := existing.(startedAt := OrElse(r.startedAt, existing.startedAt));
            existing := existing.(finishedAt := OrElse(r.finishedAt, existing.finishedAt));
            existing := existing.(state := r.state, triggerSource := r.triggerSource);
            existing := existing.(errorMessage := OrElse(NullIfEmpty(r.errorMessage), existing.errorMessage));
            existing := existing.(errorStackTrace := OrElse(NullIfEmpty(r.errorStackTrace), existing.errorStackTrace));
            existing := existing.(receivedAt := now);
            runs := runs[id := existing];
          }
        }
      }
      assert batch[..|batch|] == batch;
    }
  }

  // ---- any stream of records ----

  predicate IsFor(r: Record, id: RunId) {
    r.id == Some(id)
  }

  /** The last value of a field that some record of the run actually carried. */
  function LastPresent<T>(stream: seq<Record>, id: RunId, field: Record -> Option<T>): Option<T> {
    if stream == [] then None
    else if IsFor(stream[|stream| - 1], id) && field(stream[|stream| - 1]).Some? then field(stream[|stream| - 1])
    else LastPresent(stream[..|stream| - 1], id, field)
  }

  function StartedAt(r: Record): Option<Time> { r.startedAt }
  function FinishedAt(r: Record): Option<Time> { r.finishedAt }
  function ErrorMessage(r: Record): Option<string> { NullIfEmpty(r.errorMessage) }
  function ErrorStackTrace(r: Record): Option<string> { NullIfEmpty(r.errorStackTrace) }
  function State(r: Record): Option<RunState> { Some(r.state) }
  function JobName(r: Record): Option<string> { Some(r.jobName) }
  function NodeId(r: Record): Option<string> { Some(r.nodeId) }
  function TriggerSource(r: Record): Option<string> { Some(r.triggerSource) }

  /** For any records at all: optional fields keep the last value that was present, the others the last
      value, and the project and creation time come from the first record. */
  lemma {:induction false} RowFields(project: nat, stream: seq<Record>, now: Time, id: RunId)
    requires id in AllUpserted(map[], project, stream, now)
    ensures var row := AllUpserted(map[], project, stream, now)[id];
            && row.startedAt == LastPresent(stream, id, StartedAt)
            && row.finishedAt == LastPresent(stream, id, FinishedAt)
            && row.errorMessage == LastPresent(stream, id, ErrorMessage)
            && row.errorStackTrace == LastPresent(stream, id, ErrorStackTrace)
            && Some(row.state) == LastPresent(stream, id, State)
            && Some(row.jobName) == LastPresent(stream, id, JobName)
            && Some(row.nodeId) == LastPresent(stream, id, NodeId)
            && Some(row.triggerSource) == LastPresent(stream, id, TriggerSource)
            && row.project == project
    ensures exists i :: 0 <= i < |stream| && IsFor(stream[i], id) && (forall j | 0 <= j < i :: !IsFor(stream[j], id))
              && AllUpserted(map[], project, stream, now)[id].createdAt
                 == (if stream[i].createdAt.Some? then stream[i].createdAt.value else now)
  {
    var n := |stream| - 1;
    var before := AllUpserted(map[], project, stream[..n], now);
    if id in before {
      RowFields(project, stream[..n], now, id);
      var i :| 0 <= i < n && IsFor(stream[..n][i], id) && (forall j | 0 <= j < i :: !IsFor(stream[..n][j], id))
        && before[id].createdAt == (if stream[..n][i].createdAt.Some? then stream[..n][i].createdAt.value else now);
      assert stream[i] == stream[..n][i];
      assert forall j | 0 <= j < i :: stream[j] == stream[..n][j];
    } else {
      NoRowNoRecord(project, stream[..n], now, id);
      assert forall j | 0 <= j < n :: stream[j] == stream[..n][j];
    }
  }

  lemma {:induction false} NoRowNoRecord(project: nat, stream: seq<Record>, now: Time, id: RunId)
    requires id !in AllUpserted(map[], project, stream, now)
    ensures forall j | 0 <= j < |stream| :: !IsFor(stream[j], id)
    ensures LastPresent(stream, id, StartedAt).None? && LastPresent(stream, id, FinishedAt).None?
    ensures LastPresent(stream, id, ErrorMessage).None? && LastPresent(stream, id, ErrorStackTrace).None?
  {
    if stream != [] {
      NoRowNoRecord(project, stream[..|stream| - 1], now, id);
      assert forall j | 0 <= j < |stream| - 1 :: stream[j] == stream[..|stream| - 1][j];
    }
  }

  /** A run's row stays with the project that reported it first, and keeps its creation time, whoever sends
      later records of it. */
  lemma {:induction false} RowKeepsOrigin(table: Table, project: nat, stream: seq<Record>, now: Time, id: RunId)
    requires id in table
    ensures var after := AllUpserted(table, project, stream, now);
            id in after && after[id].project == table[id].project && after[id].createdAt == table[id].createdAt
  {
    if stream != [] {
      RowKeepsOrigin(table, project, stream[..|stream| - 1], now, id);
    }
  }

  /** A batch touches the rows of its own runs only, and stamps each of those with its time. */
  lemma {:induction false} BatchStamps(table: Table, project: nat, batch: seq<Record>, now: Time, id: RunId)
    ensures var after := AllUpserted(table, project, batch, now);
            if exists i :: 0 <= i < |batch| && batch[i].id == Some(id)
            then id in after && after[id].receivedAt == now
            else (id in after <==> id in table) && (id in table ==> after[id] == table[id])
  {
    if batch != [] {
      var n := |batch| - 1;
      BatchStamps(table, project, batch[..n], now, id);
      assert forall i | 0 <= i < n :: batch[..n][i] == batch[i];
      if i :| 0 <= i < n && batch[..n][i].id == Some(id) {
        assert batch[i].id == Some(id);
      }
      if i :| 0 <= i < |batch| && batch[i].id == Some(id) {
        assert i < n ==> batch[..n][i].id == Some(id);
      }
    }
  }

  // ---- growing streams ----

  /** Between two records of one run nothing that was present goes missing. */
  predicate RecordGrows(a: Record, b: Record) {
    && a.createdAt.Some? && b.createdAt == a.createdAt
    && (a.startedAt.Some? ==> b.startedAt.Some?)
    && (a.finishedAt.Some? ==> b.finishedAt.Some?)
    && (a.errorMessage != "" ==> b.errorMessage != "")
    && (a.errorStackTrace != "" ==> b.errorStackTrace != "")
  }

  predicate SameRun(a: Record, b: Record) {
    a.id.Some? && a.id == b.id
  }

  ghost predicate Growing(stream: seq<Record>) {
    && (forall i | 0 <= i < |stream| :: stream[i].createdAt.Some?)
    && (forall i, j | 0 <= i < j < |stream| && SameRun(stream[i], stream[j]) :: RecordGrows(stream[i], stream[j]))
  }

  /** The row says what the record says, apart from when it arrived. */
  predicate Shows(row: Row, r: Record) {
    && row.jobName == r.jobName && row.nodeId == r.nodeId && Some(row.createdAt) == r.createdAt
    && row.startedAt == r.startedAt && row.finishedAt == r.finishedAt
    && row.state == r.state && row.triggerSource == r.triggerSource
    && row.errorMessage == NullIfEmpty(r.errorMessage) && row.errorStackTrace == NullIfEmpty(r.errorStackTrace)
  }

  /** The position of a run's last record in a stream. */
  ghost predicate LastOf(stream: seq<Record>, id: RunId, i: int) {
    && 0 <= i < |stream| && stream[i].id == Some(id)
    && forall j | i < j < |stream| :: stream[j].id != Some(id)
  }

  /** The table holds exactly the runs of the stream, each as its last record shows it. */
  ghost predicate Mirrors(table: Table, stream: seq<Record>) {
    && (forall id | id in table :: exists i :: LastOf(stream, id, i) && Shows(table[id], stream[i]))
    && (forall i | 0 <= i < |stream| && stream[i].id.Some? :: stream[i].id.value in table)
  }

  lemma UpsertKeepsMirror(table: Table, stream: seq<Record>, project: nat, r: Record, now: Time)
    requires Mirrors(table, stream) && Growing(stream + [r])
    ensures Mirrors(Upserted(table, project, r, now), stream + [r])
  {
    var after, longer := Upserted(table, project, r, now), stream + [r];
    forall id | id in after
      ensures exists i :: LastOf(longer, id, i) && Shows(after[id], longer[i])
    {
      if r.id == Some(id) {
        assert LastOf(longer, id, |stream|);
        if id in table {
          var i :| LastOf(stream, id, i) && Shows(table[id], stream[i]);
          assert longer[i] == stream[i] && longer[|stream|] == r;
          assert SameRun(longer[i], longer[|stream|]);
        } else {
          assert longer[|stream|].createdAt.Some?;
        }
        assert Shows(after[id], longer[|stream|]);
      } else {
        var i :| LastOf(stream, id, i) && Shows(table[id], stream[i]);
        assert LastOf(longer, id, i) && longer[i] == stream[i];
      }
    }
    forall i | 0 <= i < |longer| && longer[i].id.Some?
      ensures longer[i].id.value in after
    {
      if i < |stream| {
        assert stream[i].id.value in table;
      }
    }
  }

  lemma GrowingPrefix(stream: seq<Record>, n: nat)
    requires Growing(stream) && n <= |stream|
    ensures Growing(stream[..n])
  {
    var p := stream[..n];
    forall i, j | 0 <= i < j < |p| && SameRun(p[i], p[j])
      ensures RecordGrows(p[i], p[j])
    {
      assert SameRun(stream[i], stream[j]);
    }
  }

  lemma {:induction false} BatchKeepsMirror(table: Table, stream: seq<Record>, project: nat, batch: seq<Record>,
                                             now: Time)
    requires Mirrors(table, stream) && Growing(stream + batch)
    ensures Mirrors(AllUpserted(table, project, batch, now), stream + batch)
  {
    if batch == [] {
      assert stream + batch == stream;
    } else {
      var n := |batch| - 1;
      assert (stream + batch)[..|stream| + n] == stream + batch[..n];
      GrowingPrefix(stream + batch, |stream| + n);
      BatchKeepsMirror(table, stream, project, batch[..n], now);
      assert (stream + batch[..n]) + [batch[n]] == stream + batch;
      UpsertKeepsMirror(AllUpserted(table, project, batch[..n], now), stream + batch[..n], project, batch[n], now);
    }
  }

  // ---- how records are grouped into batches does not matter ----

  function Strip(table: Table): Table {
    map id | id in table :: table[id].(receivedAt := 0)
  }

  lemma {:induction false} UpsertsConcatenate(table: Table, project: nat, a: seq<Record>, b: seq<Record>, now: Time)
    ensures AllUpserted(table, project, a + b, now) == AllUpserted(AllUpserted(table, project, a, now), project, b, now)
  {
    if b == [] {
      assert a + b == a;
    } else {
      var n := |b| - 1;
      assert (a + b)[..|a| + n] == a + b[..n];
      UpsertsConcatenate(table, project, a, b[..n], now);
    }
  }

  /** The receive time touches nothing else, as long as records say when their run was created. */
  lemma {:induction false} ReceiveTimeIsAside(s: Table, t: Table, project: nat, records: seq<Record>, now: Time,
                                               later: Time)
    requires Strip(s) == Strip(t)
    requires forall i | 0 <= i < |records| :: records[i].createdAt.Some?
    ensures Strip(AllUpserted(s, project, records, now)) == Strip(AllUpserted(t, project, records, later))
  {
    if records != [] {
      var n := |records| - 1;
      ReceiveTimeIsAside(s, t, project, records[..n], now, later);
      UpsertIsAside(AllUpserted(s, project, records[..n], now), AllUpserted(t, project, records[..n], later),
                    project, records[n], now, later);
    }
  }

  lemma UpsertIsAside(s: Table, t: Table, project: nat, r: Record, now: Time, later: Time)
    requires Strip(s) == Strip(t) && r.createdAt.Some?
    ensures Strip(Upserted(s, project, r, now)) == Strip(Upserted(t, project, r, later))
  {
    assert s.Keys == Strip(s).Keys == Strip(t).Keys == t.Keys;
    forall id | id in s
      ensures s[id].(receivedAt := 0) == t[id].(receivedAt := 0)
    {
      assert Strip(s)[id] == Strip(t)[id];
    }
    var s', t' := Upserted(s, project, r, now), Upserted(t, project, r, later);
    forall id | id in s'
      ensures id in t' && s'[id].(receivedAt := 0) == t'[id].(receivedAt := 0)
    {
    }
  }
}
