/** Election and one job's cron loop in one machine: every node's loop reads the flag that the lease
    protocol maintains, at whatever moments it gets to run, and the Redis clock is everybody's clock.

    A loop asks for the flag and nothing else, so a node that was told to stop may go on turning. Nothing is
    assumed of terms or coverage; what is asked is asked of single turns, and a node can check it from its
    own records. */
module ClusterCron {
  import opened Options
  import opened Scheduler
  import opened ClusterSchedule
  import LeaderLease

  type NodeId = LeaderLease.NodeId
  type Next = Time -> Option<Time>

  /** One node's loop as far as the job goes: the last span is the current one while `leading`. `readFrom` is
      when the call began that is behind the flag it last acted on. A thrown answer ends the loop. */
  datatype NodeLoop = NodeLoop(leading: bool, entry: Option<Time>, spans: seq<Span>, readFrom: Time, dead: bool)

  datatype World = World(cluster: LeaderLease.Cluster, loops: map<NodeId, NodeLoop>)

  datatype Event = Lease(e: LeaderLease.Event) | Turn(n: NodeId, answer: Answer)

  const FRESH_LOOP := NodeLoop(false, None, [], 0, false)

  function LoopOf(w: World, n: NodeId): NodeLoop {
    if n in w.loops then w.loops[n] else FRESH_LOOP
  }

  /** Becoming leader, if the loop has not noticed yet. */
  function Noticed(next: Next, x: NodeLoop, now: Time): NodeLoop {
    if x.leading && x.spans != [] then x
    else x.(leading := true, entry := next(now), spans := x.spans + [Span(now, Track(now, []))])
  }

  /** One look at the clock in the current span, on a flag read from a call that began at `readFrom`. */
  function Fired(next: Next, x: NodeLoop, now: Time, answer: Answer, readFrom: Time): NodeLoop
    requires x.spans != []
  {
    var n := |x.spans| - 1;
    if Due(x.entry, now) && answer == Threw then x.(dead := true)
    else
      var span := Span(x.spans[n].start, Ticked(x.spans[n].track, x.entry, now, answer));
      x.(entry := if Due(x.entry, now) then next(now) else x.entry, spans := x.spans[n := span], readFrom := readFrom)
  }

  predicate CanTurn(w: World, n: NodeId) {
    n in w.cluster.nodes && !LoopOf(w, n).dead
  }

  function AfterTurn(next: Next, w: World, n: NodeId, answer: Answer): NodeLoop
    requires n in w.cluster.nodes
  {
    var x, node, now := LoopOf(w, n), w.cluster.nodes[n], w.cluster.now;
    if !node.isLeader then x.(leading := false)
    else Fired(next, Noticed(next, x, now), now, answer, node.settledFrom)
  }

  function Step(next: Next, w: World, e: Event): World {
    match e
    case Lease(l) => w.(cluster := LeaderLease.Step(w.cluster, l))
    case Turn(n, answer) => if CanTurn(w, n) then w.(loops := w.loops[n := AfterTurn(next, w, n, answer)]) else w
  }

  const START := World(LeaderLease.START, map[])

  function Run(next: Next, events: seq<Event>): World {
    if events == [] then START else Step(next, Run(next, events[..|events| - 1]), events[|events| - 1])
  }

  // ---- what every run keeps ----

  ghost predicate Answers(next: Next, occurrences: iset<Time>) {
    forall t :: LeastAfter(occurrences, t, next(t))
  }

  /** A loop's spans cover what they claim, one after the other, up to now. */
  ghost predicate LoopKeeps(occurrences: iset<Time>, x: NodeLoop, now: Time) {
    && Succession(occurrences, x.spans)
    && (forall k | 0 <= k < |x.spans| :: x.spans[k].track.horizon <= now)
    && (x.leading ==>
          && x.spans != []
          && InStep(occurrences, x.spans[|x.spans| - 1].start, x.spans[|x.spans| - 1].track, x.entry))
  }

  /** The call the loop counts on was granted after it began. */
  ghost predicate LeaseKeeps(c: LeaderLease.Cluster, n: NodeId, x: NodeLoop) {
    && n in c.nodes
    && (x.leading ==> c.nodes[n].grantedAt.Some? && x.readFrom <= c.nodes[n].grantedAt.value)
  }

  ghost predicate LoopsKeep(occurrences: iset<Time>, w: World) {
    && LeaderLease.LeaseInvariant(w.cluster)
    && forall n | n in w.loops ::
         LoopKeeps(occurrences, w.loops[n], w.cluster.now) && LeaseKeeps(w.cluster, n, w.loops[n])
  }

  /** What a lease step leaves: grants only get newer, leases stay, the clock does not go back, and a
      stopped node stays stopped. */
  lemma LeaseStepMonotone(c: LeaderLease.Cluster, e: LeaderLease.Event, n: NodeId)
    requires LeaderLease.LeaseInvariant(c) && n in c.nodes
    ensures var d := LeaderLease.Step(c, e);
            && n in d.nodes && d.nodes[n].lease == c.nodes[n].lease && c.now <= d.now
            && (c.nodes[n].stopped ==> d.nodes[n].stopped)
            && (c.nodes[n].grantedAt.Some? ==>
                  d.nodes[n].grantedAt.Some? && c.nodes[n].grantedAt.value <= d.nodes[n].grantedAt.value)
  {
    assert LeaderLease.NodeInvariant(c, n);
  }

  lemma LeaseStepClock(c: LeaderLease.Cluster, e: LeaderLease.Event)
    ensures c.now <= LeaderLease.Step(c, e).now
  {
  }

  lemma LeaseStepKeepsLoops(next: Next, occurrences: iset<Time>, w: World, e: LeaderLease.Event)
    requires LoopsKeep(occurrences, w)
    ensures LoopsKeep(occurrences, Step(next, w, Lease(e)))
  {
    var v := Step(next, w, Lease(e));
    LeaderLease.StepKeepsLease(w.cluster, e);
    LeaseStepClock(w.cluster, e);
    forall n | n in w.loops
      ensures LoopKeeps(occurrences, w.loops[n], v.cluster.now) && LeaseKeeps(v.cluster, n, w.loops[n])
    {
      assert LeaseKeeps(w.cluster, n, w.loops[n]);
      LeaseStepMonotone(w.cluster, e, n);
    }
  }

  lemma NoticedKeeps(next: Next, occurrences: iset<Time>, x: NodeLoop, now: Time)
    requires Answers(next, occurrences) && LoopKeeps(occurrences, x, now)
    ensures LoopKeeps(occurrences, Noticed(next, x, now), now) && Noticed(next, x, now).leading
  {
    var y := Noticed(next, x, now);
    if y != x {
      forall k | 0 < k < |y.spans|
        ensures EndsBefore(y.spans[k - 1], y.spans[k])
      {
        if k < |x.spans| {
          assert EndsBefore(x.spans[k - 1], x.spans[k]);
        }
      }
      assert LeastAfter(occurrences, now, next(now));
    }
  }

  lemma FiredKeeps(next: Next, occurrences: iset<Time>, x: NodeLoop, now: Time, answer: Answer, readFrom: Time)
    requires Answers(next, occurrences) && LoopKeeps(occurrences, x, now) && x.leading
    ensures LoopKeeps(occurrences, Fired(next, x, now, answer, readFrom), now)
  {
    var y, n := Fired(next, x, now, answer, readFrom), |x.spans| - 1;
    assert LeastAfter(occurrences, now, next(now));
    TickKeepsStep(occurrences, x.spans[n].start, x.spans[n].track, x.entry, now, answer, next(now));
    forall k | 0 < k < |y.spans|
      ensures EndsBefore(y.spans[k - 1], y.spans[k])
    {
      assert EndsBefore(x.spans[k - 1], x.spans[k]);
    }
  }

  lemma LeadingKeeps(next: Next, occurrences: iset<Time>, x: NodeLoop, now: Time, answer: Answer, readFrom: Time)
    requires Answers(next, occurrences) && LoopKeeps(occurrences, x, now)
    ensures LoopKeeps(occurrences, Fired(next, Noticed(next, x, now), now, answer, readFrom), now)
  {
    NoticedKeeps(next, occurrences, x, now);
    FiredKeeps(next, occurrences, Noticed(next, x, now), now, answer, readFrom);
  }

  lemma TurnKeepsLoop(next: Next, occurrences: iset<Time>, w: World, n: NodeId, answer: Answer)
    requires Answers(next, occurrences) && LoopsKeep(occurrences, w) && CanTurn(w, n)
    ensures LoopKeeps(occurrences, AfterTurn(next, w, n, answer), w.cluster.now)
  {
    assert LoopKeeps(occurrences, LoopOf(w, n), w.cluster.now);
    LeadingKeeps(next, occurrences, LoopOf(w, n), w.cluster.now, answer, w.cluster.nodes[n].settledFrom);
  }

  lemma TurnKeepsLease(next: Next, occurrences: iset<Time>, w: World, n: NodeId, answer: Answer)
    requires Answers(next, occurrences) && LoopsKeep(occurrences, w) && CanTurn(w, n)
    ensures LeaseKeeps(w.cluster, n, AfterTurn(next, w, n, answer))
  {
    assert LeaderLease.NodeInvariant(w.cluster, n);
    assert LeastAfter(occurrences, w.cluster.now, next(w.cluster.now));
    assert n in w.loops ==> LeaseKeeps(w.cluster, n, w.loops[n]) && LoopKeeps(occurrences, w.loops[n], w.cluster.now);
  }

  lemma StepKeepsLoops(next: Next, occurrences: iset<Time>, w: World, e: Event)
    requires Answers(next, occurrences) && LoopsKeep(occurrences, w)
    ensures LoopsKeep(occurrences, Step(next, w, e))
  {
    match e {
      case Lease(l) => LeaseStepKeepsLoops(next, occurrences, w, l);
      case Turn(n, answer) =>
        if CanTurn(w, n) {
          TurnKeepsLoop(next, occurrences, w, n, answer);
          TurnKeepsLease(next, occurrences, w, n, answer);
        }
    }
  }

  /** Whatever happens, every loop covers what its spans claim. */
  lemma {:induction false} RunKeepsLoops(next: Next, occurrences: iset<Time>, events: seq<Event>)
    requires Answers(next, occurrences)
    ensures LoopsKeep(occurrences, Run(next, events))
  {
    if events != [] {
      RunKeepsLoops(next, occurrences, events[..|events| - 1]);
      StepKeepsLoops(next, occurrences, Run(next, events[..|events| - 1]), events[|events| - 1]);
    }
  }

  // ---- which occurrences are attempted ----

  /** The attempt `i` of the node's span `k` is for the occurrence `u`. */
  ghost predicate Attempts(w: World, n: NodeId, k: int, i: int, u: Time) {
    n in w.loops && ReachedBy(w.loops[n].spans, k, i, u)
  }

  predicate InsideSpan(w: World, n: NodeId, k: int, u: Time) {
    n in w.loops && 0 <= k < |w.loops[n].spans|
    && w.loops[n].spans[k].start < u <= w.loops[n].spans[k].track.horizon
  }

  lemma ReachedInside(occurrences: iset<Time>, spans: seq<Span>, k: nat, i: nat, u: Time)
    requires Succession(occurrences, spans) && ReachedBy(spans, k, i, u)
    ensures spans[k].start < u <= spans[k].track.horizon
  {
    assert Covers(occurrences, spans[k].start, spans[k].track);
    FirstAttemptAfterStart(occurrences, spans[k].start, spans[k].track, i);
  }

  /** In every run at all, an occurrence is attempted by some node exactly when it lies in some node's span,
      after its start and up to its last tick: what falls between the spans is missed, nothing else. */
  lemma ClusterAccount(next: Next, occurrences: iset<Time>, events: seq<Event>, u: Time)
    requires Answers(next, occurrences) && u in occurrences
    ensures var w := Run(next, events);
            (exists n, k, i :: Attempts(w, n, k, i, u)) <==> (exists n, k :: InsideSpan(w, n, k, u))
  {
    RunKeepsLoops(next, occurrences, events);
    var w := Run(next, events);
    forall n, k, i | Attempts(w, n, k, i, u)
      ensures InsideSpan(w, n, k, u)
    {
      assert LoopKeeps(occurrences, w.loops[n], w.cluster.now);
      ReachedInside(occurrences, w.loops[n].spans, k, i, u);
    }
    forall n, k | InsideSpan(w, n, k, u)
      ensures exists i :: Attempts(w, n, k, i, u)
    {
      assert LoopKeeps(occurrences, w.loops[n], w.cluster.now);
      var span := w.loops[n].spans[k];
      var i := ExactlyOneAttempt(occurrences, span.start, span.track, u);
      assert Attempts(w, n, k, i, u);
    }
  }

  ghost predicate FiresOnce(w: World) {
    forall u, n, k, i, m, l, j :: Attempts(w, n, k, i, u) && Attempts(w, m, l, j, u) ==> n == m && k == l && i == j
  }

  // ---- what is asked of a turn ----

  /** A leading turn is allowed only before the node was told to stop; and if the loop has been leading since
      an earlier turn, only up to a lease after the call began that is behind the flag that turn read. */
  predicate PromptTurn(w: World, n: NodeId) {
    n in w.cluster.nodes && w.cluster.nodes[n].isLeader ==>
      && !w.cluster.nodes[n].stopped
      && (LoopOf(w, n).leading ==> w.cluster.now <= LoopOf(w, n).readFrom + w.cluster.nodes[n].lease)
  }

  /** Every turn was allowed where it was taken. */
  ghost predicate AllTurns(next: Next, events: seq<Event>, allowed: (World, NodeId) -> bool) {
    forall i | 0 <= i < |events| && events[i].Turn? :: allowed(Run(next, events[..i]), events[i].n)
  }

  // ---- why prompt turns keep nodes apart ----

  /** The times after `a0` up to `a1` and those after `b0` up to `b1` have none in common. */
  predicate NoneShared(a0: Time, a1: Time, b0: Time, b1: Time) {
    Max(a0, b0) >= (if a1 < b1 then a1 else b1)
  }

  lemma NoneSharedWithBoth(s: Time, h: Time, t: Time, a: Time, b: Time)
    requires s <= h <= t && NoneShared(s, h, a, b) && NoneShared(h, t, a, b)
    ensures NoneShared(s, t, a, b)
  {
  }

  predicate Apart(a: Span, b: Span) {
    NoneShared(a.start, a.track.horizon, b.start, b.track.horizon)
  }

  ghost predicate LoopsApart(x: NodeLoop, y: NodeLoop) {
    forall k, l | 0 <= k < |x.spans| && 0 <= l < |y.spans| :: Apart(x.spans[k], y.spans[l])
  }

  /** The loop may still go on with its span: from its last tick up to its limit. */
  predicate Open(w: World, n: NodeId) {
    n in w.loops && n in w.cluster.nodes && w.loops[n].leading && w.loops[n].spans != []
    && !w.cluster.nodes[n].stopped
  }

  function LastTick(w: World, n: NodeId): Time
    requires Open(w, n)
  {
    w.loops[n].spans[|w.loops[n].spans| - 1].track.horizon
  }

  function Limit(w: World, n: NodeId): Time
    requires Open(w, n)
  {
    w.loops[n].readFrom + w.cluster.nodes[n].lease
  }

  /** No two nodes may both go on into the same time. */
  predicate WindowsApart(w: World, n: NodeId, m: NodeId) {
    Open(w, n) && Open(w, m) ==> NoneShared(LastTick(w, n), Limit(w, n), LastTick(w, m), Limit(w, m))
  }

  /** Node `n` may not go on into a time that node `m` has covered. */
  ghost predicate WindowClear(w: World, n: NodeId, m: NodeId)
    requires m in w.loops
  {
    Open(w, n) ==> forall l | 0 <= l < |w.loops[m].spans| ::
                     NoneShared(w.loops[m].spans[l].start, w.loops[m].spans[l].track.horizon,
                                LastTick(w, n), Limit(w, n))
  }

  ghost predicate Exclusive(w: World, n: NodeId, m: NodeId)
    requires n in w.loops && m in w.loops
  {
    WindowsApart(w, n, m) && WindowClear(w, n, m) && LoopsApart(w.loops[n], w.loops[m])
  }

  ghost predicate AllExclusive(w: World) {
    forall n, m | n in w.loops && m in w.loops && n != m :: Exclusive(w, n, m)
  }

  lemma LeaseStepKeepsExclusive(next: Next, occurrences: iset<Time>, w: World, e: LeaderLease.Event)
    requires LoopsKeep(occurrences, w) && AllExclusive(w)
    ensures AllExclusive(Step(next, w, Lease(e)))
  {
    var v := Step(next, w, Lease(e));
    forall n | n in w.loops
      ensures Open(v, n) ==> Open(w, n) && LastTick(v, n) == LastTick(w, n) && Limit(v, n) == Limit(w, n)
    {
      assert LeaseKeeps(w.cluster, n, w.loops[n]);
      LeaseStepMonotone(w.cluster, e, n);
    }
    forall n, m | n in w.loops && m in w.loops && n != m
      ensures Exclusive(v, n, m)
    {
      assert Exclusive(w, n, m);
    }
  }

  /** Two nodes cannot both have their limits ahead of them. */
  lemma OneLimitAhead(occurrences: iset<Time>, w: World, n: NodeId, limit: Time, m: NodeId)
    requires LoopsKeep(occurrences, w) && n != m && n in w.cluster.nodes && !w.cluster.nodes[n].stopped && Open(w, m)
    requires w.cluster.nodes[n].grantedAt.Some?
    requires limit <= w.cluster.nodes[n].grantedAt.value + w.cluster.nodes[n].lease
    ensures limit <= w.cluster.now || Limit(w, m) <= w.cluster.now
  {
    assert LeaseKeeps(w.cluster, m, w.loops[m]);
    assert LeaderLease.NodeInvariant(w.cluster, n) && LeaderLease.NodeInvariant(w.cluster, m);
  }

  /** What a leading turn that does not end the loop leaves: the past spans, and a current one that ends now
      and either begins now or began where it did. */
  lemma LeadingTurn(next: Next, occurrences: iset<Time>, w: World, n: NodeId, answer: Answer)
    requires Answers(next, occurrences) && LoopsKeep(occurrences, w) && CanTurn(w, n) && w.cluster.nodes[n].isLeader
    requires !AfterTurn(next, w, n, answer).dead
    ensures var x, y, now := LoopOf(w, n), AfterTurn(next, w, n, answer), w.cluster.now;
            && y.leading && y.spans != [] && y.readFrom == w.cluster.nodes[n].settledFrom
            && y.spans[|y.spans| - 1].track.horizon == now
            && (forall k | 0 <= k < |y.spans| - 1 :: k < |x.spans| && y.spans[k] == x.spans[k])
            && (if x.leading
                then |y.spans| == |x.spans| && y.spans[|y.spans| - 1].start == x.spans[|x.spans| - 1].start
                else y.spans[|y.spans| - 1].start == now)
  {
    assert LoopKeeps(occurrences, LoopOf(w, n), w.cluster.now);
  }

  /** Any other turn changes no span, and lets no loop go on that could not. */
  lemma IdleTurn(next: Next, occurrences: iset<Time>, w: World, n: NodeId, answer: Answer)
    requires Answers(next, occurrences) && LoopsKeep(occurrences, w) && CanTurn(w, n)
    requires !w.cluster.nodes[n].isLeader || AfterTurn(next, w, n, answer).dead
    ensures var x, y := LoopOf(w, n), AfterTurn(next, w, n, answer);
            y.spans == x.spans && y.readFrom == x.readFrom && (y.leading ==> x.leading)
  {
    assert LoopKeeps(occurrences, LoopOf(w, n), w.cluster.now);
    assert LeastAfter(occurrences, w.cluster.now, next(w.cluster.now));
  }

  /** A span that goes on up to now, within its limit, still shares no time with another node's span. */
  lemma GoesOnApart(occurrences: iset<Time>, w: World, n: NodeId, m: NodeId, l: nat)
    requires LoopsKeep(occurrences, w) && AllExclusive(w) && n in w.loops && m in w.loops && n != m
    requires Open(w, n) && w.cluster.now <= Limit(w, n) && l < |w.loops[m].spans|
    ensures var x, other := w.loops[n], w.loops[m].spans[l];
            NoneShared(x.spans[|x.spans| - 1].start, w.cluster.now, other.start, other.track.horizon)
  {
    var x, other := w.loops[n], w.loops[m].spans[l];
    var k := |x.spans| - 1;
    assert LoopKeeps(occurrences, x, w.cluster.now);
    assert Exclusive(w, n, m) && Apart(x.spans[k], other);
    assert NoneShared(other.start, other.track.horizon, LastTick(w, n), Limit(w, n));
    assert Covers(occurrences, x.spans[k].start, x.spans[k].track);
    NoneSharedWithBoth(x.spans[k].start, LastTick(w, n), w.cluster.now, other.start, other.track.horizon);
  }

  lemma PastSpansApart(w: World, n: NodeId, m: NodeId, k: nat, l: nat)
    requires AllExclusive(w) && m in w.loops && m != n && k < |LoopOf(w, n).spans| && l < |w.loops[m].spans|
    ensures Apart(LoopOf(w, n).spans[k], w.loops[m].spans[l])
  {
    assert Exclusive(w, n, m);
  }

  /** Node `m` against a leading turn of node `n`. */
  lemma LeadingTurnKeepsApart(next: Next, occurrences: iset<Time>, w: World, n: NodeId, answer: Answer, m: NodeId)
    requires Answers(next, occurrences) && LoopsKeep(occurrences, w) && AllExclusive(w)
    requires CanTurn(w, n) && PromptTurn(w, n) && w.cluster.nodes[n].isLeader && !AfterTurn(next, w, n, answer).dead
    requires m in w.loops && m != n
    ensures var y := AfterTurn(next, w, n, answer);
            LoopsApart(y, w.loops[m]) && LoopsApart(w.loops[m], y)
  {
    var x, y, now := LoopOf(w, n), AfterTurn(next, w, n, answer), w.cluster.now;
    LeadingTurn(next, occurrences, w, n, answer);
    assert LoopKeeps(occurrences, w.loops[m], now) && LoopKeeps(occurrences, x, now);
    forall k, l | 0 <= k < |y.spans| && 0 <= l < |w.loops[m].spans|
      ensures Apart(y.spans[k], w.loops[m].spans[l])
    {
      if k < |y.spans| - 1 {
        PastSpansApart(w, n, m, k, l);
      } else if x.leading {
        GoesOnApart(occurrences, w, n, m, l);
      }
    }
  }

  lemma LeadingTurnKeepsWindows(next: Next, occurrences: iset<Time>, w: World, n: NodeId, answer: Answer, m: NodeId)
    requires Answers(next, occurrences) && LoopsKeep(occurrences, w) && AllExclusive(w)
    requires CanTurn(w, n) && PromptTurn(w, n) && w.cluster.nodes[n].isLeader && !AfterTurn(next, w, n, answer).dead
    requires m in w.loops && m != n
    ensures var v := w.(loops := w.loops[n := AfterTurn(next, w, n, answer)]);
            WindowsApart(v, n, m) && WindowsApart(v, m, n) && WindowClear(v, n, m)
  {
    LeadingTurn(next, occurrences, w, n, answer);
    assert LoopKeeps(occurrences, w.loops[m], w.cluster.now);
    assert LeaderLease.NodeInvariant(w.cluster, n);
    if Open(w, m) {
      OneLimitAhead(occurrences, w, n, w.cluster.nodes[n].settledFrom + w.cluster.nodes[n].lease, m);
    }
  }

  lemma LeadingTurnKeepsOthersClear(next: Next, occurrences: iset<Time>, w: World, n: NodeId, answer: Answer, m: NodeId)
    requires Answers(next, occurrences) && LoopsKeep(occurrences, w) && AllExclusive(w)
    requires CanTurn(w, n) && PromptTurn(w, n) && w.cluster.nodes[n].isLeader && !AfterTurn(next, w, n, answer).dead
    requires m in w.loops && m != n
    ensures WindowClear(w.(loops := w.loops[n := AfterTurn(next, w, n, answer)]), m, n)
  {
    var x, y, now := LoopOf(w, n), AfterTurn(next, w, n, answer), w.cluster.now;
    LeadingTurn(next, occurrences, w, n, answer);
    assert LoopKeeps(occurrences, w.loops[m], now);
    if Open(w, m) {
      forall k | 0 <= k < |y.spans|
        ensures NoneShared(y.spans[k].start, y.spans[k].track.horizon, LastTick(w, m), Limit(w, m))
      {
        if k < |y.spans| - 1 {
          assert Exclusive(w, m, n);
        } else if x.leading {
          assert LoopKeeps(occurrences, x, now);
          assert Exclusive(w, m, n) && Exclusive(w, n, m) && Open(w, n);
          assert NoneShared(x.spans[k].start, x.spans[k].track.horizon, LastTick(w, m), Limit(w, m));
          assert Covers(occurrences, x.spans[k].start, x.spans[k].track);
          NoneSharedWithBoth(x.spans[k].start, LastTick(w, n), now, LastTick(w, m), Limit(w, m));
        }
      }
    }
  }

  /** A loop whose spans and limit stay, and that goes on only if it could, disturbs no exclusion. */
  lemma SpansUnmoved(w: World, n: NodeId, y: NodeLoop, m: NodeId)
    requires AllExclusive(w) && m in w.loops && m != n
    requires y.spans == LoopOf(w, n).spans && y.readFrom == LoopOf(w, n).readFrom
    requires y.leading ==> LoopOf(w, n).leading
    ensures var v := w.(loops := w.loops[n := y]);
            Exclusive(v, n, m) && Exclusive(v, m, n)
  {
    if n in w.loops {
      assert Exclusive(w, n, m) && Exclusive(w, m, n);
    }
  }

  lemma IdleTurnKeeps(next: Next, occurrences: iset<Time>, w: World, n: NodeId, answer: Answer, m: NodeId)
    requires Answers(next, occurrences) && LoopsKeep(occurrences, w) && AllExclusive(w) && CanTurn(w, n)
    requires !w.cluster.nodes[n].isLeader || AfterTurn(next, w, n, answer).dead
    requires m in w.loops && m != n
    ensures var v := w.(loops := w.loops[n := AfterTurn(next, w, n, answer)]);
            Exclusive(v, n, m) && Exclusive(v, m, n)
  {
    IdleTurn(next, occurrences, w, n, answer);
    SpansUnmoved(w, n, AfterTurn(next, w, n, answer), m);
  }

  lemma TurnKeepsPair(next: Next, occurrences: iset<Time>, w: World, n: NodeId, answer: Answer, m: NodeId)
    requires Answers(next, occurrences) && LoopsKeep(occurrences, w) && AllExclusive(w)
    requires CanTurn(w, n) && PromptTurn(w, n) && m in w.loops && m != n
    ensures var v := w.(loops := w.loops[n := AfterTurn(next, w, n, answer)]);
            Exclusive(v, n, m) && Exclusive(v, m, n)
  {
    if w.cluster.nodes[n].isLeader && !AfterTurn(next, w, n, answer).dead {
      LeadingTurnKeepsApart(next, occurrences, w, n, answer, m);
      LeadingTurnKeepsWindows(next, occurrences, w, n, answer, m);
      LeadingTurnKeepsOthersClear(next, occurrences, w, n, answer, m);
    } else {
      IdleTurnKeeps(next, occurrences, w, n, answer, m);
    }
  }

  /** What is said of two nodes depends on their own loops only. */
  lemma OthersStayExclusive(w: World, n: NodeId, x: NodeLoop, a: NodeId, b: NodeId)
    requires a in w.loops && b in w.loops && a != n && b != n && Exclusive(w, a, b)
    ensures Exclusive(w.(loops := w.loops[n := x]), a, b)
  {
  }

  lemma TurnKeepsExclusive(next: Next, occurrences: iset<Time>, w: World, n: NodeId, answer: Answer)
    requires Answers(next, occurrences) && LoopsKeep(occurrences, w) && AllExclusive(w)
    requires CanTurn(w, n) && PromptTurn(w, n)
    ensures AllExclusive(w.(loops := w.loops[n := AfterTurn(next, w, n, answer)]))
  {
    var x := AfterTurn(next, w, n, answer);
    var v := w.(loops := w.loops[n := x]);
    forall a, b | a in v.loops && b in v.loops && a != b
      ensures Exclusive(v, a, b)
    {
      if a == n {
        TurnKeepsPair(next, occurrences, w, n, answer, b);
      } else if b == n {
        TurnKeepsPair(next, occurrences, w, n, answer, a);
      } else {
        assert Exclusive(w, a, b);
        OthersStayExclusive(w, n, x, a, b);
      }
    }
  }

  lemma {:induction false} RunKeepsExclusive(next: Next, occurrences: iset<Time>, events: seq<Event>)
    requires Answers(next, occurrences) && AllTurns(next, events, PromptTurn)
    ensures AllExclusive(Run(next, events))
  {
    if events != [] {
      var before, e := events[..|events| - 1], events[|events| - 1];
      TurnsBefore(next, events, PromptTurn);
      RunKeepsExclusive(next, occurrences, before);
      RunKeepsLoops(next, occurrences, before);
      match e {
        case Lease(l) => LeaseStepKeepsExclusive(next, occurrences, Run(next, before), l);
        case Turn(n, answer) =>
          if CanTurn(Run(next, before), n) {
            TurnKeepsExclusive(next, occurrences, Run(next, before), n, answer);
          }
      }
    }
  }

  lemma TurnsBefore(next: Next, events: seq<Event>, allowed: (World, NodeId) -> bool)
    requires events != [] && AllTurns(next, events, allowed)
    ensures AllTurns(next, events[..|events| - 1], allowed)
    ensures events[|events| - 1].Turn? ==> allowed(Run(next, events[..|events| - 1]), events[|events| - 1].n)
  {
    var before := events[..|events| - 1];
    forall i | 0 <= i < |before| && before[i].Turn?
      ensures allowed(Run(next, before[..i]), before[i].n)
    {
      assert before[..i] == events[..i] && before[i] == events[i];
    }
  }

  // ---- no occurrence twice ----

  /** However ticks, delays, failures, stops and turns interleave: if every leading turn is prompt, no
      occurrence is attempted twice, by one node or by several. */
  lemma PromptClusterFiresOnce(next: Next, occurrences: iset<Time>, events: seq<Event>)
    requires Answers(next, occurrences) && AllTurns(next, events, PromptTurn)
    ensures FiresOnce(Run(next, events))
  {
    RunKeepsExclusive(next, occurrences, events);
    RunKeepsLoops(next, occurrences, events);
    var w := Run(next, events);
    forall u, n, k, i, m, l, j | Attempts(w, n, k, i, u) && Attempts(w, m, l, j, u)
      ensures n == m && k == l && i == j
    {
      assert LoopKeeps(occurrences, w.loops[n], w.cluster.now) && LoopKeeps(occurrences, w.loops[m], w.cluster.now);
      assert n != m ==> Exclusive(w, n, m) && Apart(w.loops[n].spans[k], w.loops[m].spans[l]);
      ReachedInside(occurrences, w.loops[n].spans, k, i, u);
      ReachedInside(occurrences, w.loops[m].spans, l, j, u);
      if n == m {
        AttemptedAtMostOnce(occurrences, w.loops[n].spans, u, k, i, l, j);
      }
    }
  }

  // ---- the loop of the machine is the loop of `Scheduler` ----

  /** What a node's loop says of one job of a `Scheduler.Loop`. */
  ghost predicate Pictures(x: NodeLoop, job: JobName, term: Term, table: NextRuns) {
    && x.leading && x.spans != [] && job in term.tracks && job in table
    && x.spans[|x.spans| - 1] == Span(term.start, term.tracks[job]) && x.entry == table[job]
  }

  /** Opening a term and making a whole pass do to every enabled job what the machine's turn does. */
  lemma TurnIsLoopTurn(jobs: seq<Job>, cron: CronTable, i: nat, x: NodeLoop, now: Time, answers: seq<Answer>,
                       readFrom: Time, before: Term, table: NextRuns, term: Term, table': NextRuns)
    requires i < |jobs| == |answers| && jobs[i].enabled
    requires if x.leading then Pictures(x, jobs[i].name, before, table) else Opened(jobs, cron, now, before, table)
    requires OnePass(jobs, cron, now, answers, true, before, table, term, table')
    ensures var next := (t: Time) => cron(jobs[i].name, t);
            var y := Noticed(next, x, now);
            && Pictures(y, jobs[i].name, before, table)
            && (!(Due(y.entry, now) && answers[i] == Threw) ==>
                  Pictures(Fired(next, y, now, answers[i], readFrom), jobs[i].name, term, table'))
  {
    assert JobPassed(jobs[i], cron, now, answers[i], true, before, table, term, table');
  }

  // ---- the condition is exact ----

  /** A leading turn comes before the node was told to stop, unless `late` allows it after; and one that goes
      on with a span comes at most `gap` after the call began that is behind the flag the last one read. */
  predicate TurnWithin(w: World, n: NodeId, gap: nat, late: bool) {
    n in w.cluster.nodes && w.cluster.nodes[n].isLeader ==>
      && (late || !w.cluster.nodes[n].stopped)
      && (LoopOf(w, n).leading ==> w.cluster.now <= LoopOf(w, n).readFrom + gap)
  }

  function Within(gap: nat, late: bool): (World, NodeId) -> bool {
    (w: World, n: NodeId) => TurnWithin(w, n, gap, late)
  }

  /** All nodes use one lease. */
  predicate Uses(events: seq<Event>, lease: nat) {
    forall e | e in events :: e.Lease? && e.e.Join? ==> e.e.lease == lease
  }

  lemma {:induction false} UsedByAll(next: Next, events: seq<Event>, lease: nat)
    requires Uses(events, lease)
    ensures forall n | n in Run(next, events).cluster.nodes :: Run(next, events).cluster.nodes[n].lease == lease
  {
    if events != [] {
      var before, e := events[..|events| - 1], events[|events| - 1];
      assert e in events && forall x | x in before :: x in events;
      UsedByAll(next, before, lease);
    }
  }

  /** Turns within a lease, none of them late, are prompt. */
  lemma WithinLeaseIsPrompt(next: Next, events: seq<Event>, lease: nat, gap: nat)
    requires Uses(events, lease) && gap <= lease && AllTurns(next, events, Within(gap, false))
    ensures AllTurns(next, events, PromptTurn)
  {
    forall i | 0 <= i < |events| && events[i].Turn?
      ensures PromptTurn(Run(next, events[..i]), events[i].n)
    {
      assert forall e | e in events[..i] :: e in events;
      UsedByAll(next, events[..i], lease);
      assert Within(gap, false)(Run(next, events[..i]), events[i].n);
    }
  }

  /** With no gap at all, nothing is ever attempted: no span gets past its start. */
  ghost predicate Still(x: NodeLoop) {
    && (forall k | 0 <= k < |x.spans| :: x.spans[k].track.horizon == x.spans[k].start)
    && (x.leading ==> x.spans != [] && x.readFrom <= x.spans[|x.spans| - 1].start)
  }

  lemma TurnKeepsStill(next: Next, occurrences: iset<Time>, w: World, n: NodeId, answer: Answer, late: bool)
    requires Answers(next, occurrences) && LoopsKeep(occurrences, w) && CanTurn(w, n)
    requires TurnWithin(w, n, 0, late) && (n in w.loops ==> Still(w.loops[n]))
    ensures Still(AfterTurn(next, w, n, answer))
  {
    var x, y := LoopOf(w, n), AfterTurn(next, w, n, answer);
    assert LoopKeeps(occurrences, x, w.cluster.now);
    if w.cluster.nodes[n].isLeader && !y.dead {
      LeadingTurn(next, occurrences, w, n, answer);
      assert LeaderLease.NodeInvariant(w.cluster, n);
    } else {
      IdleTurn(next, occurrences, w, n, answer);
    }
  }

  lemma {:induction false} NoGapNoProgress(next: Next, occurrences: iset<Time>, events: seq<Event>, late: bool)
    requires Answers(next, occurrences) && AllTurns(next, events, Within(0, late))
    ensures forall n | n in Run(next, events).loops :: Still(Run(next, events).loops[n])
  {
    if events != [] {
      var before, e := events[..|events| - 1], events[|events| - 1];
      TurnsBefore(next, events, Within(0, late));
      NoGapNoProgress(next, occurrences, before, late);
      RunKeepsLoops(next, occurrences, before);
      if e.Turn? && CanTurn(Run(next, before), e.n) {
        TurnKeepsStill(next, occurrences, Run(next, before), e.n, e.answer, late);
      }
    }
  }

  lemma StillFiresOnce(occurrences: iset<Time>, w: World)
    requires LoopsKeep(occurrences, w) && forall n | n in w.loops :: Still(w.loops[n])
    ensures FiresOnce(w)
  {
    forall u, n, k, i | Attempts(w, n, k, i, u)
      ensures false
    {
      assert LoopKeeps(occurrences, w.loops[n], w.cluster.now) && Still(w.loops[n]);
      ReachedInside(occurrences, w.loops[n].spans, k, i, u);
    }
  }

  /** No occurrence fires twice, whatever else happens. */
  ghost predicate Safe(lease: nat, gap: nat, late: bool) {
    forall next, occurrences, events ::
      Answers(next, occurrences) && Uses(events, lease) && AllTurns(next, events, Within(gap, late))
      ==> FiresOnce(Run(next, events))
  }

  /** Limiting how long after the call behind the last-read flag a loop may go on with its span keeps every
      occurrence from firing twice exactly when the limit is at most the lease and no leading turn comes
      after the node was told to stop; or when the limit is zero and nothing ever fires. */
  lemma OneFiringIff(lease: nat, gap: nat, late: bool)
    requires lease > 0
    ensures Safe(lease, gap, late) <==> gap == 0 || (gap <= lease && !late)
  {
    if gap == 0 || (gap <= lease && !late) {
      forall next, occurrences, events |
        Answers(next, occurrences) && Uses(events, lease) && AllTurns(next, events, Within(gap, late))
        ensures FiresOnce(Run(next, events))
      {
        if gap == 0 {
          NoGapNoProgress(next, occurrences, events, late);
          RunKeepsLoops(next, occurrences, events);
          StillFiresOnce(occurrences, Run(next, events));
        } else {
          WithinLeaseIsPrompt(next, events, lease, gap);
          PromptClusterFiresOnce(next, occurrences, events);
        }
      }
    } else if late {
      var events := StoppedNodeFiresTwice(lease, gap);
      OnlyAnswers(1);
      assert !FiresOnce(Run(Only(1), events));
    } else {
      var events := LateTurnFiresTwice(lease, gap, late);
      OnlyAnswers(lease + 1);
      assert !FiresOnce(Run(Only(lease + 1), events));
    }
  }

  // ---- the failing runs, for every lease ----

  lemma RunSnoc(next: Next, events: seq<Event>, e: Event)
    ensures Run(next, events + [e]) == Step(next, Run(next, events), e)
  {
    assert (events + [e])[..|events|] == events;
  }

  /** One occurrence, and no other. */
  function Only(u: Time): Next {
    t => if t < u then Some(u) else None
  }

  lemma OnlyAnswers(u: Time)
    ensures Answers(Only(u), iset{u})
  {
  }

  /** One more event, which is an allowed turn or no turn. */
  lemma OneMore(next: Next, allowed: (World, NodeId) -> bool, lease: nat, events: seq<Event>, e: Event)
    returns (longer: seq<Event>)
    requires AllTurns(next, events, allowed) && (e.Turn? ==> allowed(Run(next, events), e.n))
    requires Uses(events, lease) && (e.Lease? && e.e.Join? ==> e.e.lease == lease)
    ensures AllTurns(next, longer, allowed) && Uses(longer, lease)
    ensures Run(next, longer) == Step(next, Run(next, events), e)
  {
    longer := events + [e];
    RunSnoc(next, events, e);
    forall i | 0 <= i < |longer| && longer[i].Turn?
      ensures allowed(Run(next, longer[..i]), longer[i].n)
    {
      if i < |events| {
        assert longer[..i] == events[..i];
      } else {
        assert longer[..i] == events;
      }
    }
  }

  /** The node becomes leader, or becomes it again without ever having read "no". */
  lemma Elected(next: Next, allowed: (World, NodeId) -> bool, lease: nat, events: seq<Event>, n: NodeId)
    returns (longer: seq<Event>)
    requires AllTurns(next, events, allowed) && Uses(events, lease)
    requires var c := Run(next, events).cluster;
             && n in c.nodes && c.nodes[n].stage == LeaderLease.Idle && !c.nodes[n].stopped
             && LeaderLease.Holder(c.key, c.now).None?
    ensures AllTurns(next, longer, allowed) && Uses(longer, lease)
    ensures var w, v := Run(next, events), Run(next, longer);
            var c := w.cluster;
            && v.loops == w.loops && v.cluster.now == c.now
            && v.cluster.key == LeaderLease.Owned(n, c.now + c.nodes[n].lease)
            && v.cluster.nodes == c.nodes[n := c.nodes[n].(isLeader := true, grantedAt := Some(c.now), begunAt := c.now,
                                                           settledFrom := c.now)]
  {
    longer := OneMore(next, allowed, lease, events, Lease(LeaderLease.BeginTick(n)));
    longer := OneMore(next, allowed, lease, longer, Lease(LeaderLease.RunScript(n)));
    longer := OneMore(next, allowed, lease, longer, Lease(LeaderLease.HandleReply(n)));
  }

  function Leader(lease: nat, t: Time): LeaderLease.Node {
    LeaderLease.Node(lease, true, false, LeaderLease.Idle, 0, Some(t), t, t)
  }

  function OpenedLoop(u: Time, t: Time): NodeLoop {
    NodeLoop(true, Some(u), [Span(t, Track(t, []))], t, false)
  }

  function TickedLoop(u: Time, t: Time, now: Time, readFrom: Time): NodeLoop {
    NodeLoop(true, None, [Span(t, Track(now, [Attempt(u, now, true)]))], readFrom, false)
  }

  /** A node just elected, whose loop has not turned yet, is allowed to. */
  ghost predicate OpensAllowed(allowed: (World, NodeId) -> bool, lease: nat, n: NodeId) {
    forall w: World | n in w.cluster.nodes && w.cluster.nodes[n] == Leader(lease, w.cluster.now) && n !in w.loops ::
      allowed(w, n)
  }

  /** What a joined node does to become leader and open a span, at any moment at which the key is free. */
  lemma JoinsAndOpens(u: Time, allowed: (World, NodeId) -> bool, lease: nat, events: seq<Event>, n: NodeId)
    returns (longer: seq<Event>)
    requires AllTurns(Only(u), events, allowed) && Uses(events, lease)
    requires var w := Run(Only(u), events);
             && n !in w.cluster.nodes && n !in w.loops && LeaderLease.Holder(w.cluster.key, w.cluster.now).None?
             && w.cluster.now < u
    requires OpensAllowed(allowed, lease, n)
    ensures AllTurns(Only(u), longer, allowed) && Uses(longer, lease)
    ensures var w, v := Run(Only(u), events), Run(Only(u), longer);
            && v.cluster == LeaderLease.Cluster(w.cluster.now, LeaderLease.Owned(n, w.cluster.now + lease),
                                                w.cluster.nodes[n := Leader(lease, w.cluster.now)])
            && v.loops == w.loops[n := OpenedLoop(u, w.cluster.now)]
  {
    longer := OneMore(Only(u), allowed, lease, events, Lease(LeaderLease.Join(n, lease)));
    longer := Elected(Only(u), allowed, lease, longer, n);
    var v := Run(Only(u), longer);
    assert v.cluster.nodes[n] == Leader(lease, v.cluster.now);
    var spans: seq<Span> := [];
    assert spans + [Span(v.cluster.now, Track(v.cluster.now, []))] == [Span(v.cluster.now, Track(v.cluster.now, []))];
    OpensAt(u, v.cluster.now);
    longer := OneMore(Only(u), allowed, lease, longer, Turn(n, Granted));
  }

  lemma OpensAt(u: Time, t: Time)
    requires t < u
    ensures Fired(Only(u), Noticed(Only(u), FRESH_LOOP, t), t, Granted, t) == OpenedLoop(u, t)
  {
    var spans := [Span(t, Track(t, []))];
    assert FRESH_LOOP.spans + spans == spans;
    assert spans[0 := spans[0]] == spans;
  }

  lemma TicksAt(u: Time, t: Time, now: Time, readFrom: Time)
    requires t < u <= now
    ensures Fired(Only(u), OpenedLoop(u, t), now, Granted, readFrom) == TickedLoop(u, t, now, readFrom)
  {
    var attempts: seq<Attempt> := [];
    assert attempts + [Attempt(u, now, true)] == [Attempt(u, now, true)];
    var after := Span(t, Track(now, [Attempt(u, now, true)]));
    assert [Span(t, Track(t, []))][0 := after] == [after];
  }

  /** A turn for the occurrence in an open span. */
  lemma TurnsAndTicks(u: Time, allowed: (World, NodeId) -> bool, lease: nat, events: seq<Event>, n: NodeId, t: Time)
    returns (longer: seq<Event>)
    requires AllTurns(Only(u), events, allowed) && Uses(events, lease)
    requires var w := Run(Only(u), events);
             && n in w.cluster.nodes && w.cluster.nodes[n].isLeader && n in w.loops && w.loops[n] == OpenedLoop(u, t)
             && t < u <= w.cluster.now && allowed(w, n)
    ensures AllTurns(Only(u), longer, allowed) && Uses(longer, lease)
    ensures var w := Run(Only(u), events);
            Run(Only(u), longer)
            == w.(loops := w.loops[n := TickedLoop(u, t, w.cluster.now, w.cluster.nodes[n].settledFrom)])
  {
    var w := Run(Only(u), events);
    TicksAt(u, t, w.cluster.now, w.cluster.nodes[n].settledFrom);
    longer := OneMore(Only(u), allowed, lease, events, Turn(n, Granted));
  }

  /** Two loops that have ticked for the same occurrence. */
  lemma BothTicked(w: World, u: Time, s: Time, t: Time, a: Time, b: Time, f: Time, g: Time)
    requires 1 in w.loops && 2 in w.loops && u <= a && u <= b
    requires w.loops[1] == TickedLoop(u, s, a, f) && w.loops[2] == TickedLoop(u, t, b, g)
    ensures !FiresOnce(w)
  {
    assert Attempts(w, 1, 0, 0, u) && Attempts(w, 2, 0, 0, u);
  }

  /** Node 1 leads from 0 and opens a span. */
  lemma FirstTerm(u: Time, allowed: (World, NodeId) -> bool, lease: nat) returns (events: seq<Event>)
    requires 0 < u && OpensAllowed(allowed, lease, 1)
    ensures Uses(events, lease) && AllTurns(Only(u), events, allowed)
    ensures Run(Only(u), events) == World(
              LeaderLease.Cluster(0, LeaderLease.Owned(1, lease), map[1 := Leader(lease, 0)]),
              map[1 := OpenedLoop(u, 0)])
  {
    events := JoinsAndOpens(u, allowed, lease, [], 1);
  }

  /** Node 1 leads from 0 and opens a span; a lease later node 2 leads and opens one. */
  lemma TwoTerms(u: Time, allowed: (World, NodeId) -> bool, lease: nat) returns (events: seq<Event>)
    requires 0 < lease < u && OpensAllowed(allowed, lease, 1) && OpensAllowed(allowed, lease, 2)
    ensures Uses(events, lease) && AllTurns(Only(u), events, allowed)
    ensures var w := Run(Only(u), events);
            && w.cluster.now == lease && w.cluster.key == LeaderLease.Owned(2, 2 * lease)
            && 1 in w.cluster.nodes && w.cluster.nodes[1] == Leader(lease, 0)
            && 2 in w.cluster.nodes && w.cluster.nodes[2] == Leader(lease, lease)
            && 1 in w.loops && w.loops[1] == OpenedLoop(u, 0) && 2 in w.loops && w.loops[2] == OpenedLoop(u, lease)
  {
    events := FirstTerm(u, allowed, lease);
    events := OneMore(Only(u), allowed, lease, events, Lease(LeaderLease.Elapse(lease)));
    events := JoinsAndOpens(u, allowed, lease, events, 2);
  }

  /** A loop that goes on too long: node 1 stalls while node 2 takes over after a lease, and one tick later
      both attempt the occurrence. */
  lemma LateTurnFiresTwice(lease: nat, gap: nat, late: bool) returns (events: seq<Event>)
    requires gap > lease > 0
    ensures Uses(events, lease) && AllTurns(Only(lease + 1), events, Within(gap, late))
    ensures !FiresOnce(Run(Only(lease + 1), events))
  {
    var u, ok := lease + 1, Within(gap, late);
    events := TwoTerms(u, ok, lease);
    events := OneMore(Only(u), ok, lease, events, Lease(LeaderLease.Elapse(1)));
    events := TurnsAndTicks(u, ok, lease, events, 1, 0);
    events := TurnsAndTicks(u, ok, lease, events, 2, lease);
    BothTicked(Run(Only(u), events), u, 0, lease, u, u, 0, lease);
  }

  lemma StoppedAlone(u: Time, allowed: (World, NodeId) -> bool, lease: nat) returns (events: seq<Event>)
    requires 0 < lease && 0 < u && OpensAllowed(allowed, lease, 1)
    ensures Uses(events, lease) && AllTurns(Only(u), events, allowed)
    ensures Run(Only(u), events) == World(
              LeaderLease.Cluster(0, LeaderLease.Free, map[1 := Leader(lease, 0).(stopped := true)]),
              map[1 := OpenedLoop(u, 0)])
  {
    events := FirstTerm(u, allowed, lease);
    events := OneMore(Only(u), allowed, lease, events, Lease(LeaderLease.StopNode(1)));
    events := OneMore(Only(u), allowed, lease, events, Lease(LeaderLease.ReleaseLease(1)));
  }

  /** Node 1 leads, opens a span, and is told to stop: the stop gives the lease away and leaves the flag, so
      node 2 leads and opens one at once. */
  lemma StoppedBeside(u: Time, allowed: (World, NodeId) -> bool, lease: nat) returns (events: seq<Event>)
    requires 0 < lease && 0 < u && OpensAllowed(allowed, lease, 1) && OpensAllowed(allowed, lease, 2)
    ensures Uses(events, lease) && AllTurns(Only(u), events, allowed)
    ensures var w := Run(Only(u), events);
            && w.cluster.now == 0
            && 1 in w.cluster.nodes && w.cluster.nodes[1] == Leader(lease, 0).(stopped := true)
            && 2 in w.cluster.nodes && w.cluster.nodes[2] == Leader(lease, 0)
            && 1 in w.loops && w.loops[1] == OpenedLoop(u, 0) && 2 in w.loops && w.loops[2] == OpenedLoop(u, 0)
  {
    events := StoppedAlone(u, allowed, lease);
    events := JoinsAndOpens(u, allowed, lease, events, 2);
  }

  /** A loop that goes on after its node was told to stop: both nodes attempt the next occurrence, however
      short the gap. */
  lemma StoppedNodeFiresTwice(lease: nat, gap: nat) returns (events: seq<Event>)
    requires lease > 0 && gap > 0
    ensures Uses(events, lease) && AllTurns(Only(1), events, Within(gap, true))
    ensures !FiresOnce(Run(Only(1), events))
  {
    var ok := Within(gap, true);
    events := StoppedBeside(1, ok, lease);
    events := OneMore(Only(1), ok, lease, events, Lease(LeaderLease.Elapse(1)));
    events := TurnsAndTicks(1, ok, lease, events, 1, 0);
    events := TurnsAndTicks(1, ok, lease, events, 2, 0);
    BothTicked(Run(Only(1), events), 1, 0, 0, 1, 1, 0, 0);
  }

  /** A leading turn of a running node within a lease of the call behind the flag it reads itself. */
  predicate FreshByItself(w: World, n: NodeId) {
    n in w.cluster.nodes && w.cluster.nodes[n].isLeader ==>
      !w.cluster.nodes[n].stopped && w.cluster.now <= w.cluster.nodes[n].settledFrom + w.cluster.nodes[n].lease
  }

  /** Node 2's term, up to its end two leases in: it has attempted the occurrence. */
  lemma SecondTermTicks(lease: nat) returns (events: seq<Event>)
    requires lease > 0
    ensures Uses(events, lease) && AllTurns(Only(lease + 1), events, FreshByItself)
    ensures var u, w := lease + 1, Run(Only(lease + 1), events);
            && w.cluster.now == 2 * lease && w.cluster.key == LeaderLease.Owned(2, 2 * lease)
            && 1 in w.cluster.nodes && w.cluster.nodes[1] == Leader(lease, 0)
            && 1 in w.loops && w.loops[1] == OpenedLoop(u, 0)
            && 2 in w.loops && w.loops[2] == TickedLoop(u, lease, u, lease)
  {
    var u := lease + 1;
    events := TwoTerms(u, FreshByItself, lease);
    events := OneMore(Only(u), FreshByItself, lease, events, Lease(LeaderLease.Elapse(1)));
    events := TurnsAndTicks(u, FreshByItself, lease, events, 2, lease);
    events := OneMore(Only(u), FreshByItself, lease, events, Lease(LeaderLease.Elapse(lease - 1)));
  }

  /** It is not enough that every flag is fresh when it is read: a node that loses the lease and gets it back
      between two turns goes on with its old span, and what node 2 attempted meanwhile fires again. */
  lemma UnnoticedReturnFiresTwice(lease: nat) returns (events: seq<Event>)
    requires lease > 0
    ensures Uses(events, lease) && AllTurns(Only(lease + 1), events, FreshByItself)
    ensures !FiresOnce(Run(Only(lease + 1), events))
  {
    var u := lease + 1;
    events := SecondTermTicks(lease);
    events := Elected(Only(u), FreshByItself, lease, events, 1);
    events := TurnsAndTicks(u, FreshByItself, lease, events, 1, 0);
    BothTicked(Run(Only(u), events), u, 0, lease, 2 * lease, u, 2 * lease, lease);
  }
}
