/** The in-memory console store: one bounded buffer per run, and a bounded number of runs.

    Only the order list is under a lock; the dictionary of buffers is changed outside it too. The state
    machine interleaves any number of append calls at every point between two shared accesses. */
module ConsoleStore {
  import opened Options

  function LastN<T>(s: seq<T>, n: nat): seq<T> {
    if |s| <= n then s else s[|s| - n..]
  }

  /** The end of `s`, at least as long as its last `n`. */
  predicate IsTail<T(==)>(s: seq<T>, tail: seq<T>, n: nat) {
    |LastN(s, n)| <= |tail| <= |s| && tail == s[|s| - |tail|..]
  }

  lemma TailGrows<T>(s: seq<T>, n: nat, entry: T)
    ensures IsTail(s + [entry], LastN(s, n) + [entry], n)
  {
  }

  lemma TailShrinks<T>(s: seq<T>, tail: seq<T>, n: nat)
    requires IsTail(s, tail, n) && |tail| > n
    ensures IsTail(s, tail[1..], n)
  {
  }

  lemma ShortTailIsLastN<T>(s: seq<T>, tail: seq<T>, n: nat)
    requires IsTail(s, tail, n) && |tail| <= n
    ensures tail == LastN(s, n)
  {
  }

  /** One run's buffer. */
  class ConsoleRunLog<T> {
    const max: nat
    var entries: seq<T>
    ghost var appended: seq<T>

    ghost predicate Valid()
      reads this
    {
      entries == LastN(appended, max)
    }

    constructor (max: nat)
      ensures Valid() && appended == [] && this.max == max
    {
      this.max := max;
      entries, appended := [], [];
    }

    method Append(entry: T)
      requires Valid()
      modifies this
      ensures Valid() && appended == old(appended) + [entry]
      ensures |entries| == (if |appended| < max then |appended| else max)
      ensures entries == appended[|appended| - |entries|..]
    {
      TailGrows(appended, max, entry);
      appended := appended + [entry];
      entries := entries + [entry];
      while |entries| > max
        invariant IsTail(appended, entries, max)
        invariant appended == old(appended) + [entry]
      {
        TailShrinks(appended, entries, max);
        entries := entries[1..];
      }
      ShortTailIsLastN(appended, entries, max);
    }

    method Snapshot() returns (r: seq<T>)
      requires Valid()
      ensures r == LastN(appended, max)
    {
      r := entries;
    }
  }

  // ---- interleaved appends ----

  type RunId = nat
  type Call = nat                                 // an append call, and the entry it carries
  type BufferId = nat

  /** Where a call is between shared accesses. `Linking` and `Evicting` hold the order lock. */
  datatype Point =
    | Entered
    | Missed
    | Created(b: BufferId)
    | Linking(b: BufferId)
    | Evicting(b: BufferId, victim: RunId)
    | Found(b: BufferId)
    | Done(b: BufferId)

  datatype Caller = Caller(run: RunId, at: Point)

  /** `appended` is every entry since the buffer's creation; `entries` is what it still holds. */
  datatype Buffer = Buffer(run: RunId, appended: seq<Call>, entries: seq<Call>)

  /** `linked` records every linking so far, newest first. */
  datatype Store = Store(
    byRun: map<RunId, BufferId>, order: seq<RunId>, lock: Option<Call>,
    buffers: seq<Buffer>, callers: map<Call, Caller>, linked: seq<RunId>)

  datatype Event = Enter(c: Call, run: RunId) | Go(c: Call)

  datatype Limits = Limits(maxPerRun: nat, maxRuns: nat)

  function Place(s: Store, c: Call, at: Point): Store
    requires c in s.callers
  {
    s.(callers := s.callers[c := s.callers[c].(at := at)])
  }

  function AppendTo(l: Limits, buffer: Buffer, c: Call): Buffer {
    buffer.(appended := buffer.appended + [c], entries := LastN(buffer.entries + [c], l.maxPerRun))
  }

  /** One shared access by one call; a call that cannot move stays put. */
  function Step(l: Limits, s: Store, e: Event): Store {
    match e
    case Enter(c, run) => if c in s.callers then s else s.(callers := s.callers[c := Caller(run, Entered)])
    case Go(c) =>
      if c !in s.callers then s
      else
        var run := s.callers[c].run;
        match s.callers[c].at
        case Entered => Place(s, c, if run in s.byRun then Found(s.byRun[run]) else Missed)
        case Missed =>
          if run in s.byRun then Place(s, c, Found(s.byRun[run]))
          else
            var b := |s.buffers|;
            Place(s.(byRun := s.byRun[run := b], buffers := s.buffers + [Buffer(run, [], [])]), c, Created(b))
        case Created(b) =>
          if s.lock.Some? then s
          else Place(s.(lock := Some(c), order := [run] + s.order, linked := [run] + s.linked), c, Linking(b))
        case Linking(b) =>
          if |s.order| > l.maxRuns && s.order != []
          then Place(s.(order := s.order[..|s.order| - 1]), c, Evicting(b, s.order[|s.order| - 1]))
          else Place(s.(lock := None), c, Found(b))
        case Evicting(b, victim) => Place(s.(byRun := s.byRun - {victim}), c, Linking(b))
        case Found(b) =>
          if b < |s.buffers| then Place(s.(buffers := s.buffers[b := AppendTo(l, s.buffers[b], c)]), c, Done(b)) else s
        case Done(_) => s
  }

  const EMPTY := Store(map[], [], None, [], map[], [])

  function Run(l: Limits, events: seq<Event>): Store {
    if events == [] then EMPTY else Step(l, Run(l, events[..|events| - 1]), events[|events| - 1])
  }

  // ---- what every interleaving keeps ----

  ghost predicate Distinct<T>(s: seq<T>) {
    forall i, j | 0 <= i < j < |s| :: s[i] != s[j]
  }

  predicate HoldsLock(at: Point) {
    at.Linking? || at.Evicting?
  }

  /** The call has put a buffer for `run` into the dictionary and not yet linked it into the order. */
  predicate Pending(s: Store, c: Call, run: RunId) {
    c in s.callers && s.callers[c].at.Created? && s.callers[c].run == run
  }

  predicate BeingEvicted(s: Store, c: Call, run: RunId) {
    c in s.callers && s.callers[c].at.Evicting? && s.callers[c].at.victim == run
  }

  ghost predicate OneLockHolder(s: Store) {
    && (forall c | c in s.callers :: HoldsLock(s.callers[c].at) ==> s.lock == Some(c))
    && (s.lock.Some? ==> s.lock.value in s.callers && HoldsLock(s.callers[s.lock.value].at))
  }

  ghost predicate LockInvariant(l: Limits, s: Store) {
    OneLockHolder(s) && NewestLinked(l, s)
  }

  /** Every tracked run has a buffer; every buffer's run is tracked, about to be, or just dropped. */
  ghost predicate OrderInvariant(s: Store) {
    && Distinct(s.order)
    && (forall run | run in s.order :: run in s.byRun)
    && (forall run | run in s.byRun && run !in s.order :: InTransit(s, run))
    && (forall c, run :: Pending(s, c, run) || BeingEvicted(s, c, run) ==> run in s.byRun && run !in s.order)
    && (forall c, run :: Pending(s, c, run) ==> s.byRun[run] == s.callers[c].at.b)
    && (forall c, d, run :: Pending(s, c, run) && Pending(s, d, run) ==> c == d)
    && (forall c, d, run :: Pending(s, c, run) ==> !BeingEvicted(s, d, run))
  }

  ghost predicate InTransit(s: Store, run: RunId) {
    exists c :: Pending(s, c, run) || BeingEvicted(s, c, run)
  }

  function BufferOf(at: Point): Option<BufferId> {
    match at
    case Entered => None
    case Missed => None
    case Created(b) => Some(b)
    case Linking(b) => Some(b)
    case Evicting(b, _) => Some(b)
    case Found(b) => Some(b)
    case Done(b) => Some(b)
  }

  /** Each buffer holds the newest entries appended to it since its creation. */
  ghost predicate HoldsNewest(l: Limits, s: Store) {
    forall b | 0 <= b < |s.buffers| :: BufferIsNewest(l, s.buffers[b])
  }

  ghost predicate BufferIsNewest(l: Limits, buffer: Buffer) {
    buffer.entries == LastN(buffer.appended, l.maxPerRun)
  }

  /** Whoever refers to a buffer refers to one of its own run. */
  ghost predicate RightRun(s: Store, run: RunId, b: BufferId) {
    b < |s.buffers| && s.buffers[b].run == run
  }

  ghost predicate BufferInvariant(l: Limits, s: Store) {
    && HoldsNewest(l, s)
    && (forall run | run in s.byRun :: RightRun(s, run, s.byRun[run]))
    && (forall c | c in s.callers && BufferOf(s.callers[c].at).Some? ::
          RightRun(s, s.callers[c].run, BufferOf(s.callers[c].at).value))
  }

  predicate Landed(s: Store, c: Call, b: BufferId) {
    c in s.callers && s.callers[c].at == Done(b)
  }

  /** A finished call is in exactly one buffer, once; an unfinished one in none. */
  ghost predicate EntryInvariant(s: Store) {
    && (forall b | 0 <= b < |s.buffers| :: Distinct(s.buffers[b].appended))
    && (forall b, c | 0 <= b < |s.buffers| ::
          c in s.buffers[b].appended <==> Landed(s, c, b))
  }

  /** The order is the newest linkings, with room for one too many under the lock. */
  ghost predicate NewestLinked(l: Limits, s: Store) {
    && |s.order| <= l.maxRuns + (if s.lock.Some? then 1 else 0)
    && s.order <= s.linked
    && (|s.order| >= l.maxRuns || s.order == s.linked)
  }

  /** What a step does to the order: nothing, link a run under the lock, drop the oldest while there is
      one too many, or give the lock back once there is not. */
  lemma OrderAfter(l: Limits, s: Store, e: Event)
    ensures var t := Step(l, s, e);
            || (t.order == s.order && t.linked == s.linked && t.lock == s.lock)
            || (exists run :: s.lock.None? && t.lock.Some? && t.order == [run] + s.order
                                && t.linked == [run] + s.linked)
            || (|s.order| > l.maxRuns && s.order != [] && t.order == s.order[..|s.order| - 1]
                && t.linked == s.linked && t.lock == s.lock && e.Go? && e.c in s.callers && s.callers[e.c].at.Linking?)
            || (|s.order| <= l.maxRuns && t.order == s.order && t.linked == s.linked && t.lock.None?)
            || (s.order == [] && t.order == s.order && t.linked == s.linked && t.lock.None?)
  {
  }

  lemma StepKeepsNewestLinked(l: Limits, s: Store, e: Event)
    requires OneLockHolder(s) && NewestLinked(l, s)
    ensures NewestLinked(l, Step(l, s, e))
  {
    var t := Step(l, s, e);
    OrderAfter(l, s, e);
    if run :| t.order == [run] + s.order && t.linked == [run] + s.linked {
      PushKeepsPrefix(s.order, s.linked, run);
    } else if t.order != s.order {
      DropKeepsPrefix(s.order, s.linked);
    }
  }

  lemma PushKeepsPrefix(order: seq<RunId>, linked: seq<RunId>, run: RunId)
    requires order <= linked
    ensures [run] + order <= [run] + linked
    ensures order == linked <==> [run] + order == [run] + linked
  {
    assert linked == order + linked[|order|..];
    assert [run] + linked == ([run] + order) + linked[|order|..];
    assert ([run] + order)[1..] == order && ([run] + linked)[1..] == linked;
  }

  lemma DropKeepsPrefix(order: seq<RunId>, linked: seq<RunId>)
    requires order <= linked && order != []
    ensures order[..|order| - 1] <= linked
  {
  }

  lemma StepKeepsHolder(l: Limits, s: Store, e: Event)
    requires OneLockHolder(s)
    ensures OneLockHolder(Step(l, s, e))
  {
  }

  lemma StepKeepsLock(l: Limits, s: Store, e: Event)
    requires LockInvariant(l, s)
    ensures LockInvariant(l, Step(l, s, e))
  {
    StepKeepsHolder(l, s, e);
    StepKeepsNewestLinked(l, s, e);
  }

  lemma LastNAbsorbs(s: seq<Call>, n: nat, c: Call)
    ensures LastN(LastN(s, n) + [c], n) == LastN(s + [c], n)
  {
  }

  lemma AppendKeepsNewest(l: Limits, buffer: Buffer, c: Call)
    requires BufferIsNewest(l, buffer)
    ensures BufferIsNewest(l, AppendTo(l, buffer, c))
  {
    LastNAbsorbs(buffer.appended, l.maxPerRun, c);
  }

  /** What a step does to the buffers: nothing, one more empty one, or one more entry in one of them. */
  lemma BuffersAfter(l: Limits, s: Store, e: Event)
    ensures var t := Step(l, s, e);
            || t.buffers == s.buffers
            || (exists run :: t.buffers == s.buffers + [Buffer(run, [], [])])
            || (exists b :: 0 <= b < |s.buffers| && e.Go?
                              && t.buffers == s.buffers[b := AppendTo(l, s.buffers[b], e.c)])
  {
  }

  lemma StepKeepsNewest(l: Limits, s: Store, e: Event)
    requires HoldsNewest(l, s)
    ensures HoldsNewest(l, Step(l, s, e))
    ensures |s.buffers| <= |Step(l, s, e).buffers|
    ensures forall b | 0 <= b < |s.buffers| :: Step(l, s, e).buffers[b].run == s.buffers[b].run
  {
    BuffersAfter(l, s, e);
    if b :| 0 <= b < |s.buffers| && e.Go? && Step(l, s, e).buffers == s.buffers[b := AppendTo(l, s.buffers[b], e.c)] {
      AppendKeepsNewest(l, s.buffers[b], e.c);
    }
  }

  lemma StepKeepsDictionary(l: Limits, s: Store, e: Event, run: RunId)
    requires BufferInvariant(l, s) && run in Step(l, s, e).byRun
    ensures RightRun(Step(l, s, e), run, Step(l, s, e).byRun[run])
  {
    StepKeepsNewest(l, s, e);
    if run in s.byRun {
      assert RightRun(s, run, s.byRun[run]);
    }
  }

  lemma StepKeepsReference(l: Limits, s: Store, e: Event, c: Call)
    requires BufferInvariant(l, s)
    requires c in Step(l, s, e).callers && BufferOf(Step(l, s, e).callers[c].at).Some?
    ensures RightRun(Step(l, s, e), Step(l, s, e).callers[c].run, BufferOf(Step(l, s, e).callers[c].at).value)
  {
    StepKeepsNewest(l, s, e);
    if c in s.callers {
      var run, old_, new_ := s.callers[c].run, BufferOf(s.callers[c].at), BufferOf(Step(l, s, e).callers[c].at);
      BufferIsKeptOrFound(l, s, e, c);
      if old_.Some? {
        assert RightRun(s, run, old_.value);
      } else if new_.value < |s.buffers| {
        assert RightRun(s, run, s.byRun[run]);
      }
    }
  }

  /** A call keeps its buffer; a call without one takes the dictionary's, or the one it creates. */
  lemma BufferIsKeptOrFound(l: Limits, s: Store, e: Event, c: Call)
    requires c in s.callers
    ensures var t := Step(l, s, e);
            var run, old_, new_ := s.callers[c].run, BufferOf(s.callers[c].at), BufferOf(t.callers[c].at);
            && c in t.callers && t.callers[c].run == run
            && (old_.Some? ==> new_ == old_)
            && (old_.None? && new_.Some? ==>
                  || (run in s.byRun && new_.value == s.byRun[run])
                  || (new_.value == |s.buffers| && new_.value < |t.buffers| && t.buffers[new_.value].run == run))
  {
  }

  lemma StepKeepsBuffers(l: Limits, s: Store, e: Event)
    requires BufferInvariant(l, s)
    ensures BufferInvariant(l, Step(l, s, e))
  {
    var t := Step(l, s, e);
    StepKeepsNewest(l, s, e);
    forall run | run in t.byRun
      ensures RightRun(t, run, t.byRun[run])
    {
      StepKeepsDictionary(l, s, e, run);
    }
    forall c | c in t.callers && BufferOf(t.callers[c].at).Some?
      ensures RightRun(t, t.callers[c].run, BufferOf(t.callers[c].at).value)
    {
      StepKeepsReference(l, s, e, c);
    }
  }

  predicate AppendsNow(s: Store, e: Event) {
    e.Go? && e.c in s.callers && s.callers[e.c].at.Found?
  }

  /** Any other step finishes no call and adds no entry. */
  lemma NothingLands(l: Limits, s: Store, e: Event)
    requires !AppendsNow(s, e)
    ensures var t := Step(l, s, e);
            && (t.buffers == s.buffers || exists run :: t.buffers == s.buffers + [Buffer(run, [], [])])
            && forall c, b :: Landed(t, c, b) <==> Landed(s, c, b)
  {
  }

  lemma StepKeepsEntries(l: Limits, s: Store, e: Event)
    requires BufferInvariant(l, s) && EntryInvariant(s)
    ensures EntryInvariant(Step(l, s, e))
  {
    if AppendsNow(s, e) {
      AppendKeepsEntries(l, s, e.c);
    } else {
      NothingLands(l, s, e);
      EntriesUnmoved(l, s, Step(l, s, e));
    }
  }

  lemma EntriesUnmoved(l: Limits, s: Store, t: Store)
    requires BufferInvariant(l, s) && EntryInvariant(s)
    requires t.buffers == s.buffers || exists run :: t.buffers == s.buffers + [Buffer(run, [], [])]
    requires forall c, b :: Landed(t, c, b) <==> Landed(s, c, b)
    ensures EntryInvariant(t)
  {
    forall b, c | 0 <= b < |t.buffers|
      ensures c in t.buffers[b].appended <==> Landed(t, c, b)
    {
      LandedIsInside(l, s, c, b);
      if b < |s.buffers| {
        assert t.buffers[b] == s.buffers[b];
        assert c in s.buffers[b].appended <==> Landed(s, c, b);
      }
    }
  }

  lemma LandedIsInside(l: Limits, s: Store, c: Call, b: BufferId)
    requires BufferInvariant(l, s)
    ensures Landed(s, c, b) ==> b < |s.buffers| && s.buffers[b].run == s.callers[c].run
  {
    if Landed(s, c, b) {
      assert BufferOf(s.callers[c].at) == Some(b);
    }
  }

  lemma AppendKeepsEntries(l: Limits, s: Store, c: Call)
    requires BufferInvariant(l, s) && EntryInvariant(s)
    requires c in s.callers && s.callers[c].at.Found?
    ensures EntryInvariant(Step(l, s, Go(c)))
  {
    var t, mine := Step(l, s, Go(c)), s.callers[c].at.b;
    assert RightRun(s, s.callers[c].run, mine);
    assert c !in s.buffers[mine].appended;
    forall b, d | 0 <= b < |t.buffers|
      ensures d in t.buffers[b].appended <==> d in t.callers && t.callers[d].at == Done(b)
    {
      assert d in s.buffers[b].appended <==> d in s.callers && s.callers[d].at == Done(b);
    }
  }

  /** What the order invariant says depends only on the order, the dictionary and who is in transit. */
  lemma TransitUnchanged(s: Store, t: Store)
    requires OrderInvariant(s) && t.order == s.order && t.byRun == s.byRun
    requires forall c, run :: Pending(t, c, run) <==> Pending(s, c, run)
    requires forall c, run :: BeingEvicted(t, c, run) <==> BeingEvicted(s, c, run)
    requires forall c, run :: Pending(t, c, run) ==> t.callers[c].at == s.callers[c].at
    ensures OrderInvariant(t)
  {
    forall run | run in t.byRun && run !in t.order
      ensures InTransit(t, run)
    {
      var c :| Pending(s, c, run) || BeingEvicted(s, c, run);
      assert Pending(t, c, run) || BeingEvicted(t, c, run);
    }
  }

  lemma CreateKeepsOrder(l: Limits, s: Store, c: Call)
    requires OrderInvariant(s) && c in s.callers && s.callers[c].at == Missed && s.callers[c].run !in s.byRun
    ensures OrderInvariant(Step(l, s, Go(c)))
  {
    var t, mine := Step(l, s, Go(c)), s.callers[c].run;
    forall run | run in t.byRun && run !in t.order
      ensures InTransit(t, run)
    {
      if run == mine {
        assert Pending(t, c, run);
      } else {
        var d :| Pending(s, d, run) || BeingEvicted(s, d, run);
        assert Pending(t, d, run) || BeingEvicted(t, d, run);
      }
    }
    forall d, run
      ensures Pending(t, d, run) <==> Pending(s, d, run) || (d == c && run == mine)
      ensures BeingEvicted(t, d, run) <==> BeingEvicted(s, d, run)
    {
    }
  }

  lemma LinkKeepsOrder(l: Limits, s: Store, c: Call)
    requires LockInvariant(l, s) && OrderInvariant(s)
    requires c in s.callers && s.callers[c].at.Created? && s.lock.None?
    ensures OrderInvariant(Step(l, s, Go(c)))
  {
    var t, mine := Step(l, s, Go(c)), s.callers[c].run;
    assert Pending(s, c, mine);
    forall d, run
      ensures Pending(t, d, run) <==> Pending(s, d, run) && d != c
      ensures !BeingEvicted(t, d, run) && !BeingEvicted(s, d, run)
    {
    }
    assert forall run :: run in t.order <==> run == mine || run in s.order;
    forall run | run in t.byRun && run !in t.order
      ensures InTransit(t, run)
    {
      var d :| Pending(s, d, run) || BeingEvicted(s, d, run);
      assert Pending(t, d, run);
    }
  }

  lemma DropKeepsOrder(l: Limits, s: Store, c: Call)
    requires LockInvariant(l, s) && OrderInvariant(s)
    requires c in s.callers && s.callers[c].at.Linking? && |s.order| > l.maxRuns && s.order != []
    ensures OrderInvariant(Step(l, s, Go(c)))
  {
    var t, n := Step(l, s, Go(c)), |s.order| - 1;
    var victim := s.order[n];
    assert s.order == t.order + [victim];
    assert forall run :: run in s.order <==> run in t.order || run == victim;
    assert victim !in t.order;
    forall d, run
      ensures Pending(t, d, run) <==> Pending(s, d, run)
      ensures BeingEvicted(t, d, run) <==> d == c && run == victim
      ensures !BeingEvicted(s, d, run)
    {
    }
    forall run | run in t.byRun && run !in t.order
      ensures InTransit(t, run)
    {
      if run == victim {
        assert BeingEvicted(t, c, run);
      } else {
        var d :| Pending(s, d, run) || BeingEvicted(s, d, run);
        assert Pending(t, d, run);
      }
    }
  }

  lemma RemoveKeepsOrder(l: Limits, s: Store, c: Call)
    requires LockInvariant(l, s) && OrderInvariant(s)
    requires c in s.callers && s.callers[c].at.Evicting?
    ensures OrderInvariant(Step(l, s, Go(c)))
  {
    var t, victim := Step(l, s, Go(c)), s.callers[c].at.victim;
    assert BeingEvicted(s, c, victim);
    forall d, run
      ensures Pending(t, d, run) <==> Pending(s, d, run)
      ensures BeingEvicted(s, d, run) <==> d == c && run == victim
      ensures !BeingEvicted(t, d, run)
    {
    }
    forall run | run in t.byRun && run !in t.order
      ensures InTransit(t, run)
    {
      var d :| Pending(s, d, run) || BeingEvicted(s, d, run);
      assert Pending(t, d, run);
    }
  }

  lemma StepKeepsOrder(l: Limits, s: Store, e: Event)
    requires LockInvariant(l, s) && OrderInvariant(s)
    ensures OrderInvariant(Step(l, s, e))
  {
    var t := Step(l, s, e);
    if e.Go? && e.c in s.callers && s.callers[e.c].at == Missed && s.callers[e.c].run !in s.byRun {
      CreateKeepsOrder(l, s, e.c);
    } else if e.Go? && e.c in s.callers && s.callers[e.c].at.Created? && s.lock.None? {
      LinkKeepsOrder(l, s, e.c);
    } else if e.Go? && e.c in s.callers && s.callers[e.c].at.Linking? && |s.order| > l.maxRuns && s.order != [] {
      DropKeepsOrder(l, s, e.c);
    } else if e.Go? && e.c in s.callers && s.callers[e.c].at.Evicting? {
      RemoveKeepsOrder(l, s, e.c);
    } else {
      TransitUnchanged(s, t);
    }
  }

  lemma {:induction false} RunKeepsAll(l: Limits, events: seq<Event>)
    ensures var s := Run(l, events);
            LockInvariant(l, s) && OrderInvariant(s) && BufferInvariant(l, s) && EntryInvariant(s)
  {
    if events != [] {
      var before, e := Run(l, events[..|events| - 1]), events[|events| - 1];
      RunKeepsAll(l, events[..|events| - 1]);
      StepKeepsLock(l, before, e);
      StepKeepsOrder(l, before, e);
      StepKeepsBuffers(l, before, e);
      StepKeepsEntries(l, before, e);
    }
  }

  // ---- conclusions ----

  /** However appends interleave: tracked runs are duplicate-free and, outside the lock, the newest
      `maxRuns` that were linked; each live buffer holds the newest entries since its creation, all of its own run. */
  lemma BoundsHold(l: Limits, events: seq<Event>, run: RunId)
    ensures var s := Run(l, events);
            && Distinct(s.order)
            && (s.lock.None? ==> s.order == (if |s.linked| <= l.maxRuns then s.linked else s.linked[..l.maxRuns]))
            && (run in s.order ==> run in s.byRun)
            && (run in s.byRun ==>
                  && s.byRun[run] < |s.buffers|
                  && s.buffers[s.byRun[run]].run == run
                  && var buffer := s.buffers[s.byRun[run]];
                     && |buffer.entries| == (if |buffer.appended| < l.maxPerRun then |buffer.appended| else l.maxPerRun)
                     && buffer.entries == buffer.appended[|buffer.appended| - |buffer.entries|..])
  {
    RunKeepsAll(l, events);
    assert run in Run(l, events).byRun ==> BufferIsNewest(l, Run(l, events).buffers[Run(l, events).byRun[run]]);
  }

  /** Once every call has finished, exactly the tracked runs have buffers, at most `maxRuns` of them. */
  lemma QuietStoreIsExact(l: Limits, events: seq<Event>, run: RunId)
    requires forall c | c in Run(l, events).callers :: Run(l, events).callers[c].at.Done?
    ensures var s := Run(l, events);
            (run in s.byRun <==> run in s.order) && |s.order| <= l.maxRuns
  {
    RunKeepsAll(l, events);
  }

  /** Entries are conserved: a finished append is in one buffer only, once, and in a buffer of its own run. */
  lemma EachEntryLandsOnce(l: Limits, events: seq<Event>, c: Call, a: BufferId, i: nat, b: BufferId, j: nat)
    requires var s := Run(l, events);
             && a < |s.buffers| && i < |s.buffers[a].appended| && s.buffers[a].appended[i] == c
             && b < |s.buffers| && j < |s.buffers[b].appended| && s.buffers[b].appended[j] == c
    ensures a == b && i == j
    ensures var s := Run(l, events);
                c in s.callers && s.callers[c].at == Done(a) && s.buffers[a].run == s.callers[c].run
  {
    RunKeepsAll(l, events);
    LandsOnce(l, Run(l, events), c, a, i, b, j);
  }

  lemma LandsOnce(l: Limits, s: Store, c: Call, a: BufferId, i: nat, b: BufferId, j: nat)
    requires BufferInvariant(l, s) && EntryInvariant(s)
    requires a < |s.buffers| && i < |s.buffers[a].appended| && s.buffers[a].appended[i] == c
    requires b < |s.buffers| && j < |s.buffers[b].appended| && s.buffers[b].appended[j] == c
    ensures a == b && i == j && c in s.callers && s.callers[c].at == Done(a) && s.buffers[a].run == s.callers[c].run
  {
    assert c in s.buffers[a].appended && c in s.buffers[b].appended;
    assert c in s.callers && s.callers[c].at == Done(a) && s.callers[c].at == Done(b);
    assert Distinct(s.buffers[a].appended);
    assert RightRun(s, s.callers[c].run, a);
  }
}
