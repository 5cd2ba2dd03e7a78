/** The database console store: an unbounded queue drained in batches by one background loop. */
module ConsoleFlush {

  datatype Entry = Entry(run: nat, message: string)

  /** A batch handed to the database, and whether it was saved; a failed batch is dropped. */
  datatype Flush = Flush(entries: seq<Entry>, saved: bool)

  ghost function Handled(flushes: seq<Flush>): seq<Entry> {
    if flushes == [] then [] else Handled(flushes[..|flushes| - 1]) + flushes[|flushes| - 1].entries
  }

  ghost function Saved(flushes: seq<Flush>): seq<Entry> {
    if flushes == [] then []
    else Saved(flushes[..|flushes| - 1]) + (if flushes[|flushes| - 1].saved then flushes[|flushes| - 1].entries else [])
  }

  /** Everything accepted is handled, in the batch, or queued, in the order it was accepted. */
  ghost predicate Conserved(accepted: seq<Entry>, flushes: seq<Flush>, batch: seq<Entry>, channel: seq<Entry>,
                            database: seq<Entry>)
  {
    accepted == Handled(flushes) + batch + channel && database == Saved(flushes)
  }

  /** What one turn of the loop wakes up to. */
  datatype Wake = EntriesReady | IntervalElapsed | Completed | Stopped

  class EfCoreConsoleStore {
    const batchSize: nat
    var channel: seq<Entry>
    var open: bool
    var batch: seq<Entry>
    var database: seq<Entry>
    ghost var accepted: seq<Entry>
    ghost var flushes: seq<Flush>

    ghost predicate Valid()
      reads this
    {
      Conserved(accepted, flushes, batch, channel, database) && |batch| <= batchSize
    }

    constructor (batchSize: nat)
      ensures Valid() && this.batchSize == batchSize && open
      ensures accepted == [] && flushes == [] && batch == [] && channel == [] && database == []
    {
      this.batchSize, open := batchSize, true;
      channel, batch, database, accepted, flushes := [], [], [], [], [];
    }

    method Append(entry: Entry) returns (ok: bool)
      requires Valid()
      modifies this`channel, this`accepted
      ensures Valid()
      ensures ok == open
      ensures channel == old(channel) + (if ok then [entry] else [])
      ensures accepted == old(accepted) + (if ok then [entry] else [])
    {
      ok := open;
      if ok {
        channel := channel + [entry];
        accepted := accepted + [entry];
      }
    }

    method DrainAvailable()
      requires Valid()
      modifies this`batch, this`channel
      ensures Valid()
      ensures batch + channel == old(batch) + old(channel)
      ensures |batch| == batchSize || channel == []
      ensures old(batch) <= batch
    {
      while |batch| < batchSize && channel != []
        invariant Valid()
        invariant batch + channel == old(batch) + old(channel)
        invariant old(batch) <= batch
        decreases |channel|
      {
        TakenOne(accepted, flushes, batch, channel, database);
        batch, channel := batch + [channel[0]], channel[1..];
      }
    }

    /** Save the batch, or drop it if the database refuses. The caller clears it. */
    method FlushBatch(saved: bool)
      requires Valid() && batch != []
      modifies this`batch, this`database, this`flushes
      ensures Valid() && batch == []
      ensures flushes == old(flushes) + [Flush(old(batch), saved)]
      ensures database == old(database) + (if saved then old(batch) else [])
    {
      FlushedOne(accepted, flushes, batch, channel, database, saved);
      if saved {
        database := database + batch;
      }
      flushes := flushes + [Flush(batch, saved)];
      batch := [];
    }

    /** One turn of the loop; `running` is false once it has been told to stop. */
    method Turn(wake: Wake, saved: bool) returns (running: bool)
      requires Valid() && batch == []
      requires wake == EntriesReady ==> channel != []
      modifies this`batch, this`channel, this`database, this`flushes
      ensures Valid() && batch == []
      ensures running == (wake != Stopped)
      ensures wake == EntriesReady ==>
                var n := if |old(channel)| < batchSize then |old(channel)| else batchSize;
                && channel == old(channel)[n..]
                && (n > 0 ==> flushes == old(flushes) + [Flush(old(channel)[..n], saved)])
                && (n == 0 ==> flushes == old(flushes))
      ensures wake != EntriesReady ==> channel == old(channel) && flushes == old(flushes) && database == old(database)
    {
      running := wake != Stopped;
      if wake == EntriesReady {
        ghost var queued := channel;
        DrainAvailable();
        assert batch + channel == [] + queued == queued;
        assert batch == queued[..|batch|] && channel == queued[|batch|..];
      }
      if batch != [] {
        FlushBatch(saved);
      }
    }

    /** The loop's last act: one more drain and one more flush, however much is queued. Nothing that was
        accepted is lost exactly when the queue fits one batch, the database takes it, and it took every
        batch before. */
    method FinalFlush(saved: bool)
      requires Valid() && batch == []
      modifies this`batch, this`channel, this`database, this`flushes
      ensures Valid() && batch == []
      ensures var n := if |old(channel)| < batchSize then |old(channel)| else batchSize;
              && channel == old(channel)[n..]
              && database == old(database) + (if saved then old(channel)[..n] else [])
              && flushes == (if n > 0 then old(flushes) + [Flush(old(channel)[..n], saved)] else old(flushes))
      ensures channel == [] <==> |old(channel)| <= batchSize
      ensures database == accepted
              <==> |old(channel)| <= batchSize && (saved || old(channel) == []) && AllSaved(old(flushes))
    {
      ghost var queued := channel;
      NothingLostIff(accepted, flushes, queued, database, batchSize, saved);
      DrainAvailable();
      assert batch + channel == [] + queued == queued;
      assert batch == queued[..|batch|] && channel == queued[|batch|..];
      if batch != [] {
        FlushBatch(saved);
      }
    }

    method Close()
      modifies this`open
      ensures !open
    {
      open := false;
    }
  }

  lemma TakenOne(accepted: seq<Entry>, flushes: seq<Flush>, batch: seq<Entry>, channel: seq<Entry>,
                   database: seq<Entry>)
    requires Conserved(accepted, flushes, batch, channel, database) && channel != []
    ensures Conserved(accepted, flushes, batch + [channel[0]], channel[1..], database)
    ensures batch + [channel[0]] + channel[1..] == batch + channel
  {
    assert [channel[0]] + channel[1..] == channel;
  }

  lemma FlushedOne(accepted: seq<Entry>, flushes: seq<Flush>, batch: seq<Entry>, channel: seq<Entry>,
                   database: seq<Entry>, saved: bool)
    requires Conserved(accepted, flushes, batch, channel, database)
    ensures Conserved(accepted, flushes + [Flush(batch, saved)], [], channel, database + if saved then batch else [])
  {
    assert (flushes + [Flush(batch, saved)])[..|flushes|] == flushes;
  }

  // ---- what reaches the database ----

  /** Never more is saved than handled; all of it exactly when every non-empty batch was saved. */
  lemma {:induction false} SavedIsHandledIff(flushes: seq<Flush>)
    ensures |Saved(flushes)| <= |Handled(flushes)|
    ensures |Saved(flushes)| == |Handled(flushes)| <==> AllSaved(flushes)
    ensures |Saved(flushes)| == |Handled(flushes)| ==> Saved(flushes) == Handled(flushes)
  {
    if flushes != [] {
      var before := flushes[..|flushes| - 1];
      SavedIsHandledIff(before);
      assert forall i | 0 <= i < |before| :: before[i] == flushes[i];
    }
  }

  ghost predicate AllSaved(flushes: seq<Flush>) {
    forall i | 0 <= i < |flushes| :: flushes[i].saved || flushes[i].entries == []
  }

  /** What decides, before the last flush, whether every accepted entry will be in the database: how much
      is queued, whether the last batch will be saved, and whether every batch so far was. */
  lemma NothingLostIff(accepted: seq<Entry>, flushes: seq<Flush>, queued: seq<Entry>, database: seq<Entry>,
                       batchSize: nat, saved: bool)
    requires Conserved(accepted, flushes, [], queued, database)
    ensures var n := if |queued| < batchSize then |queued| else batchSize;
            database + (if saved then queued[..n] else []) == accepted
            <==> |queued| <= batchSize && (saved || queued == []) && AllSaved(flushes)
  {
    SavedIsHandledIff(flushes);
    assert |accepted| == |Handled(flushes)| + |queued|;
  }

  /** The stop run on a store that was handed entries and then closed, with a database that never fails:
      whatever exceeds one batch is lost. */
  method CleanStopLosesTail(batchSize: nat, entries: seq<Entry>) returns (store: EfCoreConsoleStore)
    ensures fresh(store) && store.Valid() && !store.open && store.accepted == entries
    ensures store.database == if |entries| < batchSize then entries else entries[..batchSize]
    ensures store.database == store.accepted <==> |entries| <= batchSize
  {
    store := new EfCoreConsoleStore(batchSize);
    for i := 0 to |entries|
      invariant fresh(store) && store.Valid() && store.open && store.batchSize == batchSize
      invariant store.batch == [] && store.flushes == [] && store.database == []
      invariant store.accepted == store.channel == entries[..i]
    {
      var ok := store.Append(entries[i]);
    }
    store.Close();
    var running := store.Turn(Stopped, true);
    store.FinalFlush(true);
  }
}
