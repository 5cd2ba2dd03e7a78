/** Leader election through one Redis key with a lease.

    The scripts are atomic; everything between a node and Redis may be delayed, lost, or take effect
    after the node has given up on it. A node's leader flag is a cache of the last reply it processed. */
module LeaderLease {
  import opened Options

  type NodeId = nat
  type Time = int                                 // the Redis server's clock

  datatype LeaderKey = Free | Owned(owner: NodeId, expiresAt: Time)

  function Holder(key: LeaderKey, now: Time): Option<NodeId> {
    if key.Owned? && now < key.expiresAt then Some(key.owner) else None
  }

  /** The acquire-or-refresh script: refused exactly when another node holds the key. */
  function Acquire(key: LeaderKey, now: Time, node: NodeId, lease: nat): (LeaderKey, bool) {
    if Holder(key, now).Some? && Holder(key, now) != Some(node) then (key, false)
    else (Owned(node, now + lease), true)
  }

  /** The release script: only the holder's own claim is deleted. */
  function Release(key: LeaderKey, now: Time, node: NodeId): LeaderKey {
    if Holder(key, now) == Some(node) then Free else key
  }

  // ---- the scripts and the coordinator as they are written ----

  /** The Redis side: commands on the leader key. An expired key reads as absent. */
  class Redis {
    var key: LeaderKey
    var now: Time

    constructor (now: Time)
      ensures key == Free && this.now == now
    {
      key, this.now := Free, now;
    }

    method AcquireOrRefreshLeader(node: NodeId, ttl: nat) returns (result: int)
      modifies this`key
      ensures (key, result == 1) == Acquire(old(key), now, node, ttl)
      ensures result == 1 || result == 0
    {
      var owner := Holder(key, now);              // GET
      if owner == Some(node) {
        key := Owned(node, now + ttl);            // EXPIRE
        return 1;
      }
      if owner == None {
        key := Owned(node, now + ttl);            // SET NX EX
        return 1;
      }
      return 0;
    }

    method ReleaseLeader(node: NodeId) returns (result: int)
      modifies this`key
      ensures key == Release(old(key), now, node)
      ensures result == 1 <==> Holder(old(key), now) == Some(node)
    {
      result := 0;
      if Holder(key, now) == Some(node) {
        key := Free;                              // DEL
        result := 1;
      }
    }
  }

  /** How one remote call can go. */
  datatype Call = Served | Unserved | ReplyLost | Cancelled(served: bool)

  predicate TakesEffect(call: Call) {
    call == Served || call == ReplyLost || call == Cancelled(true)
  }

  class Coordinator {
    const node: NodeId
    const lease: nat                              // whole seconds in the source, at least one
    var isLeader: bool
    var stopped: bool
    var looping: bool

    constructor (node: NodeId, lease: nat)
      ensures this.node == node && this.lease == lease && !isLeader && !stopped && looping
    {
      this.node, this.lease := node, lease;
      isLeader, stopped, looping := false, false, true;
    }

    /** One round of the maintenance loop. An error demotes; a cancellation ends the loop and leaves the flag. */
    method MaintenanceRound(redis: Redis, call: Call)
      requires looping && !stopped
      modifies this`isLeader, this`looping, redis`key
      ensures redis.key == if TakesEffect(call) then Acquire(old(redis.key), redis.now, node, lease).0
                           else old(redis.key)
      ensures isLeader == match call
                          case Served => Acquire(old(redis.key), redis.now, node, lease).1
                          case Cancelled(_) => old(isLeader)
                          case _ => false
      ensures looping == !call.Cancelled?
      ensures call == Served && isLeader && lease > 0 ==> Holder(redis.key, redis.now) == Some(node)
    {
      var result := 0;
      if TakesEffect(call) {
        result := redis.AcquireOrRefreshLeader(node, lease);
      }
      match call {
        case Served => isLeader := result == 1;
        case Cancelled(_) => looping := false;
        case _ => if isLeader { isLeader := false; }
      }
    }

    /** Stopping releases the lease once, and never touches the flag. */
    method Stop(redis: Redis, call: Call)
      modifies this`stopped, this`looping, redis`key
      ensures stopped && isLeader == old(isLeader)
      ensures redis.key == if !old(stopped) && isLeader && TakesEffect(call)
                           then Release(old(redis.key), redis.now, node) else old(redis.key)
    {
      if stopped {
        return;
      }
      stopped := true;
      looping := false;
      if isLeader {
        if TakesEffect(call) {
          var _ := redis.ReleaseLeader(node);
        }
      }
    }
  }

  // ---- every interleaving ----

  /** `Requested`: sent, not run yet. `Answered`: run, reply under way. `Exited`: the loop is gone. */
  datatype Stage = Idle | Requested | Answered(granted: bool) | Exited

  /** `strays` counts requests the node has given up on that may still run. Three records for the proof:
      `grantedAt`, when the node's script last succeeded; `begunAt`, when its latest call began; and
      `settledFrom`, when the last call that it saw through to a reply or an error began. */
  datatype Node = Node(lease: nat, isLeader: bool, stopped: bool, stage: Stage, strays: nat,
                       grantedAt: Option<Time>, begunAt: Time, settledFrom: Time)

  datatype Cluster = Cluster(now: Time, key: LeaderKey, nodes: map<NodeId, Node>)

  datatype Event =
    | Elapse(duration: nat)
    | Join(n: NodeId, lease: nat)
    | BeginTick(n: NodeId)
    | RunScript(n: NodeId)
    | RunStray(n: NodeId)
    | HandleReply(n: NodeId)
    | CallFails(n: NodeId, queued: bool)
    | LoopCancelled(n: NodeId, queued: bool)
    | StopNode(n: NodeId)
    | ReleaseLease(n: NodeId)

  predicate Waiting(stage: Stage) {
    stage.Requested? || stage.Answered?
  }

  predicate Enabled(c: Cluster, e: Event) {
    match e
    case Elapse(_) => true
    case Join(n, _) => n !in c.nodes
    case BeginTick(n) => n in c.nodes && c.nodes[n].stage == Idle && !c.nodes[n].stopped
    case RunScript(n) => n in c.nodes && c.nodes[n].stage == Requested
    case RunStray(n) => n in c.nodes && c.nodes[n].strays > 0
    case HandleReply(n) => n in c.nodes && c.nodes[n].stage.Answered?
    case CallFails(n, queued) => n in c.nodes && Waiting(c.nodes[n].stage) && (queued ==> c.nodes[n].stage == Requested)
    case LoopCancelled(n, queued) =>
      n in c.nodes && Waiting(c.nodes[n].stage) && (queued ==> c.nodes[n].stage == Requested)
    case StopNode(n) => n in c.nodes && !c.nodes[n].stopped
    case ReleaseLease(n) => n in c.nodes && c.nodes[n].stopped && c.nodes[n].isLeader
  }

  /** The script run on behalf of a node, with the grant recorded. */
  function Granting(c: Cluster, n: NodeId, node: Node): Cluster {
    var (key, ok) := Acquire(c.key, c.now, n, node.lease);
    c.(key := key, nodes := c.nodes[n := if ok then node.(grantedAt := Some(c.now)) else node])
  }

  /** One step; an event that cannot happen changes nothing. */
  function Step(c: Cluster, e: Event): Cluster {
    if !Enabled(c, e) then c
    else
      match e
      case Elapse(d) => c.(now := c.now + d)
      case Join(n, lease) => c.(nodes := c.nodes[n := Node(lease, false, false, Idle, 0, None, c.now, c.now)])
      case BeginTick(n) => c.(nodes := c.nodes[n := c.nodes[n].(stage := Requested, begunAt := c.now)])
      case RunScript(n) =>
        var ok := Acquire(c.key, c.now, n, c.nodes[n].lease).1;
        Granting(c, n, c.nodes[n].(stage := Answered(ok)))
      case RunStray(n) => Granting(c, n, c.nodes[n].(strays := c.nodes[n].strays - 1))
      case HandleReply(n) =>
        c.(nodes := c.nodes[n := c.nodes[n].(stage := Idle, isLeader := c.nodes[n].stage.granted,
                                             settledFrom := c.nodes[n].begunAt)])
      case CallFails(n, queued) =>
        c.(nodes := c.nodes[n := c.nodes[n].(stage := Idle, isLeader := false, settledFrom := c.nodes[n].begunAt,
                                             strays := c.nodes[n].strays + if queued then 1 else 0)])
      case LoopCancelled(n, queued) =>
        c.(nodes := c.nodes[n := c.nodes[n].(stage := Exited, strays := c.nodes[n].strays + if queued then 1 else 0)])
      case StopNode(n) => c.(nodes := c.nodes[n := c.nodes[n].(stopped := true)])
      case ReleaseLease(n) => c.(key := Release(c.key, c.now, n))
  }

  const START := Cluster(0, Free, map[])

  /** The cluster after any list of events. */
  function Run(events: seq<Event>): Cluster {
    if events == [] then START else Step(Run(events[..|events| - 1]), events[|events| - 1])
  }

  // ---- what every run keeps ----

  /** What a running node reports as its leadership. */
  predicate Leads(c: Cluster, n: NodeId) {
    n in c.nodes && c.nodes[n].isLeader && !c.nodes[n].stopped
  }

  /** The node's last successful script ran less than one lease ago. */
  predicate Fresh(c: Cluster, n: NodeId) {
    && n in c.nodes && !c.nodes[n].stopped
    && c.nodes[n].grantedAt.Some?
    && c.now < c.nodes[n].grantedAt.value + c.nodes[n].lease
  }

  ghost predicate KeyIsGranted(c: Cluster) {
    c.key.Owned? ==>
      && c.key.owner in c.nodes
      && var node := c.nodes[c.key.owner];
         node.grantedAt.Some? && c.key.expiresAt == node.grantedAt.value + node.lease
  }

  ghost predicate NodeInvariant(c: Cluster, n: NodeId)
    requires n in c.nodes
  {
    var node := c.nodes[n];
    && (Fresh(c, n) ==> c.key == Owned(n, node.grantedAt.value + node.lease))
    && node.begunAt <= c.now
    && (node.grantedAt.Some? ==> node.grantedAt.value <= c.now)
    && (node.stage == Answered(true) ==> node.grantedAt.Some? && node.begunAt <= node.grantedAt.value)
    && (node.isLeader ==> node.grantedAt.Some? && node.settledFrom <= node.grantedAt.value)
  }

  ghost predicate LeaseInvariant(c: Cluster) {
    KeyIsGranted(c) && forall n | n in c.nodes :: NodeInvariant(c, n)
  }

  /** A script, wanted or stray, grants the key only when no other node is within its lease. */
  lemma GrantKeepsLease(c: Cluster, n: NodeId, node: Node)
    requires LeaseInvariant(c) && n in c.nodes
    requires node == c.nodes[n].(stage := node.stage, strays := node.strays)
    requires node.stage == Answered(true) ==>
               c.nodes[n].stage == Answered(true) || Acquire(c.key, c.now, n, node.lease).1
    ensures LeaseInvariant(Granting(c, n, node))
  {
    var d := Granting(c, n, node);
    forall m | m in d.nodes
      ensures NodeInvariant(d, m)
    {
      assert NodeInvariant(c, m) && NodeInvariant(c, n);
    }
  }

  /** A node's own bookkeeping touches neither the key nor its grant. */
  lemma BookkeepingKeepsLease(c: Cluster, n: NodeId, node: Node)
    requires LeaseInvariant(c) && n in c.nodes
    requires node.grantedAt == c.nodes[n].grantedAt && node.lease == c.nodes[n].lease && node.begunAt <= c.now
    requires c.nodes[n].stopped ==> node.stopped
    requires node.stage == Answered(true) ==> node.grantedAt.Some? && node.begunAt <= node.grantedAt.value
    requires node.isLeader ==> node.grantedAt.Some? && node.settledFrom <= node.grantedAt.value
    ensures LeaseInvariant(c.(nodes := c.nodes[n := node]))
  {
    var d := c.(nodes := c.nodes[n := node]);
    forall m | m in d.nodes
      ensures NodeInvariant(d, m)
    {
      assert NodeInvariant(c, m);
    }
  }

  lemma ElapseOrReleaseKeepsLease(c: Cluster, e: Event)
    requires LeaseInvariant(c) && Enabled(c, e) && (e.Elapse? || e.ReleaseLease? || e.Join?)
    ensures LeaseInvariant(Step(c, e))
  {
    var d := Step(c, e);
    forall m | m in d.nodes
      ensures NodeInvariant(d, m)
    {
      assert m in c.nodes ==> NodeInvariant(c, m);
    }
  }

  lemma StepKeepsLease(c: Cluster, e: Event)
    requires LeaseInvariant(c)
    ensures LeaseInvariant(Step(c, e))
  {
    if !Enabled(c, e) {
    } else if e.Elapse? || e.ReleaseLease? || e.Join? {
      ElapseOrReleaseKeepsLease(c, e);
    } else if e.RunScript? {
      GrantKeepsLease(c, e.n, c.nodes[e.n].(stage := Answered(Acquire(c.key, c.now, e.n, c.nodes[e.n].lease).1)));
    } else if e.RunStray? {
      GrantKeepsLease(c, e.n, c.nodes[e.n].(strays := c.nodes[e.n].strays - 1));
    } else {
      assert NodeInvariant(c, e.n);
      BookkeepingKeepsLease(c, e.n, Step(c, e).nodes[e.n]);
    }
  }

  lemma {:induction false} RunKeepsLease(events: seq<Event>)
    ensures LeaseInvariant(Run(events))
  {
    if events != [] {
      RunKeepsLease(events[..|events| - 1]);
      StepKeepsLease(Run(events[..|events| - 1]), events[|events| - 1]);
    }
  }

  /** In every interleaving, the live holder of the key is exactly the live node within its lease. */
  lemma FreshIffHolder(events: seq<Event>, n: NodeId)
    requires n in Run(events).nodes && !Run(events).nodes[n].stopped
    ensures Fresh(Run(events), n) <==> Holder(Run(events).key, Run(events).now) == Some(n)
  {
    RunKeepsLease(events);
  }

  /** Hence no two live nodes are within their leases at once; two live leaders mean a stale flag. */
  lemma AtMostOneFreshNode(events: seq<Event>, a: NodeId, b: NodeId)
    requires a != b
    ensures !(Fresh(Run(events), a) && Fresh(Run(events), b))
    ensures Leads(Run(events), a) && Leads(Run(events), b) ==> !Fresh(Run(events), a) || !Fresh(Run(events), b)
  {
    RunKeepsLease(events);
  }

  ghost predicate AllLeadersFresh(c: Cluster) {
    forall n | n in c.nodes :: Leads(c, n) ==> Fresh(c, n)
  }

  /** When every node refreshes or is demoted within its lease, at most one node reports leadership. */
  lemma TimelyMeansOneLeader(events: seq<Event>, a: NodeId, b: NodeId)
    requires AllLeadersFresh(Run(events))
    requires Leads(Run(events), a) && Leads(Run(events), b)
    ensures a == b
  {
    RunKeepsLease(events);
  }

  /** The call behind the node's flag began less than a lease ago: something a node can tell by itself. */
  predicate Prompt(c: Cluster, n: NodeId) {
    n in c.nodes && c.now < c.nodes[n].settledFrom + c.nodes[n].lease
  }

  /** A leader whose last settled call began within its lease is fresh, whatever delays the call met,
      because errors demote; so leaders that all keep to this are one leader. */
  lemma PromptMeansOneLeader(events: seq<Event>, a: NodeId, b: NodeId)
    requires Leads(Run(events), a) && Prompt(Run(events), a)
    ensures Fresh(Run(events), a)
    ensures Leads(Run(events), b) && Prompt(Run(events), b) ==> a == b
  {
    RunKeepsLease(events);
  }

  // ---- why "live" and "fresh" are both needed ----

  lemma RunSnoc(events: seq<Event>, e: Event)
    ensures Run(events + [e]) == Step(Run(events), e)
  {
    assert (events + [e])[..|events|] == events;
  }

  /** The run continued by node `n` joining and becoming leader. */
  function ThenElected(events: seq<Event>, n: NodeId, lease: nat): seq<Event> {
    events + [Join(n, lease)] + [BeginTick(n)] + [RunScript(n)] + [HandleReply(n)]
  }

  lemma RunElected(events: seq<Event>, n: NodeId, lease: nat)
    requires n !in Run(events).nodes && Holder(Run(events).key, Run(events).now).None?
    ensures var c, d := Run(events), Run(ThenElected(events, n, lease));
            && d.now == c.now && d.key == Owned(n, c.now + lease)
            && d.nodes == c.nodes[n := Node(lease, true, false, Idle, 0, Some(c.now), c.now, c.now)]
  {
    var joined := events + [Join(n, lease)];
    var begun := joined + [BeginTick(n)];
    var scripted := begun + [RunScript(n)];
    RunSnoc(events, Join(n, lease));
    RunSnoc(joined, BeginTick(n));
    RunSnoc(begun, RunScript(n));
    RunSnoc(scripted, HandleReply(n));
    var c := Run(events);
    assert Run(joined).nodes == c.nodes[n := Node(lease, false, false, Idle, 0, None, c.now, c.now)];
    assert Run(begun).nodes == c.nodes[n := Node(lease, false, false, Requested, 0, None, c.now, c.now)];
    assert Run(scripted).nodes == c.nodes[n := Node(lease, false, false, Answered(true), 0, Some(c.now), c.now, c.now)];
  }

  // ---- how long a silent leader is safe ----

  predicate IsOf(e: Event, n: NodeId) {
    match e
    case Elapse(_) => false
    case Join(m, _) => m == n
    case BeginTick(m) => m == n
    case RunScript(m) => m == n
    case RunStray(m) => m == n
    case HandleReply(m) => m == n
    case CallFails(m, _) => m == n
    case LoopCancelled(m, _) => m == n
    case StopNode(m) => m == n
    case ReleaseLease(m) => m == n
  }

  function Elapsed(events: seq<Event>): nat {
    if events == [] then 0
    else
      var last := events[|events| - 1];
      Elapsed(events[..|events| - 1]) + if last.Elapse? then last.duration else 0
  }

  /** A continuation in which `n` does nothing, `d` passes, and another node that is within its lease
      reports leadership beside it. */
  ghost predicate Usurps(events: seq<Event>, n: NodeId, d: nat, more: seq<Event>, m: NodeId) {
    && (forall e | e in more :: !IsOf(e, n)) && Elapsed(more) == d
    && m != n && Leads(Run(events + more), n) && Leads(Run(events + more), m) && Fresh(Run(events + more), m)
  }

  lemma {:induction false} OthersLeaveItAlone(events: seq<Event>, more: seq<Event>, n: NodeId)
    requires n in Run(events).nodes && forall e | e in more :: !IsOf(e, n)
    ensures var c, d := Run(events), Run(events + more);
            d.now == c.now + Elapsed(more) && n in d.nodes && d.nodes[n] == c.nodes[n]
  {
    if more == [] {
      assert events + more == events;
    } else {
      var before, last := more[..|more| - 1], more[|more| - 1];
      assert events + more == (events + before) + [last];
      assert last in more && forall e | e in before :: e in more;
      OthersLeaveItAlone(events, before, n);
      RunSnoc(events + before, last);
    }
  }

  /** A leader that falls silent can find a rightful leader beside it after `d` exactly when the lease of
      its last grant is over by then, whatever the other nodes do. */
  lemma UsurpedIffLeaseOver(events: seq<Event>, n: NodeId, d: nat)
    requires Leads(Run(events), n) && Fresh(Run(events), n)
    ensures (exists more, m :: Usurps(events, n, d, more, m))
            <==> Run(events).nodes[n].grantedAt.value + Run(events).nodes[n].lease <= Run(events).now + d
  {
    var node := Run(events).nodes[n];
    forall more, m | Usurps(events, n, d, more, m)
      ensures node.grantedAt.value + node.lease <= Run(events).now + d
    {
      OthersLeaveItAlone(events, more, n);
      AtMostOneFreshNode(events + more, n, m);
    }
    if node.grantedAt.value + node.lease <= Run(events).now + d {
      Usurper(events, n, d);
    }
  }

  lemma Usurper(events: seq<Event>, n: NodeId, d: nat)
    requires Leads(Run(events), n) && Fresh(Run(events), n)
    requires Run(events).nodes[n].grantedAt.value + Run(events).nodes[n].lease <= Run(events).now + d
    ensures exists more, m :: Usurps(events, n, d, more, m)
  {
    RunKeepsLease(events);
    var waited := events + [Elapse(d)];
    RunSnoc(events, Elapse(d));
    assert NodeInvariant(Run(events), n);
    var m := Newcomer(Run(waited).nodes.Keys);
    RunElected(waited, m, 1);
    var more := [Elapse(d), Join(m, 1), BeginTick(m), RunScript(m), HandleReply(m)];
    assert events + more == ThenElected(waited, m, 1);
    ElapsedOnce(d, m);
    assert Usurps(events, n, d, more, m);
  }

  lemma ElapsedOnce(d: nat, m: NodeId)
    ensures Elapsed([Elapse(d), Join(m, 1), BeginTick(m), RunScript(m), HandleReply(m)]) == d
  {
    var e0 := [Elapse(d)];
    var e1 := e0 + [Join(m, 1)];
    var e2 := e1 + [BeginTick(m)];
    var e3 := e2 + [RunScript(m)];
    var e4 := e3 + [HandleReply(m)];
    assert e4 == [Elapse(d), Join(m, 1), BeginTick(m), RunScript(m), HandleReply(m)];
    ElapsedSnoc(e3, HandleReply(m));
    ElapsedSnoc(e2, RunScript(m));
    ElapsedSnoc(e1, BeginTick(m));
    ElapsedSnoc(e0, Join(m, 1));
    ElapsedSnoc([], Elapse(d));
    assert e0 == [] + [Elapse(d)];
  }

  lemma ElapsedSnoc(events: seq<Event>, e: Event)
    ensures Elapsed(events + [e]) == Elapsed(events) + if e.Elapse? then e.duration else 0
  {
    assert (events + [e])[..|events|] == events;
  }

  // ---- how soon a dead leader is replaced ----

  predicate ScriptOf(e: Event, n: NodeId) {
    e == RunScript(n) || e == RunStray(n)
  }

  /** Without a script of its owner, a claim on the key stays as it is until it is gone for good. */
  lemma {:induction false} ClaimNotRenewed(events: seq<Event>, more: seq<Event>, h: NodeId)
    requires Run(events).key.Owned? && Run(events).key.owner == h && forall e | e in more :: !ScriptOf(e, h)
    ensures var c, d := Run(events), Run(events + more);
            && d.now == c.now + Elapsed(more)
            && (d.key == c.key || d.key.Free? || d.key.owner != h)
  {
    if more == [] {
      assert events + more == events;
    } else {
      var before, last := more[..|more| - 1], more[|more| - 1];
      assert events + more == (events + before) + [last];
      assert last in more && forall e | e in before :: e in more;
      ClaimNotRenewed(events, before, h);
      RunSnoc(events + before, last);
    }
  }

  /** Once the key's owner runs no more scripts and the rest of its lease has passed, it holds the key no
      longer, and the next script of any other node leaves some other node holding it. */
  lemma TakeoverAfterLease(events: seq<Event>, more: seq<Event>, h: NodeId, n: NodeId)
    requires Run(events).key.Owned? && Run(events).key.owner == h && forall e | e in more :: !ScriptOf(e, h)
    requires Run(events).key.expiresAt <= Run(events).now + Elapsed(more)
    requires var c := Run(events + more);
             n != h && n in c.nodes && c.nodes[n].stage == Requested && c.nodes[n].lease > 0
    ensures var c := Run(events + more);
            var d := Step(c, RunScript(n));
            && Holder(c.key, c.now) != Some(h)
            && Holder(d.key, d.now).Some? && Holder(d.key, d.now) != Some(h)
            && (d.nodes[n].stage == Answered(true) <==> Holder(c.key, c.now) in {None, Some(n)})
            && (d.nodes[n].stage == Answered(true) ==> d.key == Owned(n, d.now + d.nodes[n].lease))
  {
    ClaimNotRenewed(events, more, h);
  }

  /** The time that has passed after the first `i` events. */
  function Spent(more: seq<Event>, i: nat): nat
    requires i <= |more|
  {
    Elapsed(more[..i])
  }

  lemma {:induction false} SpentGrows(more: seq<Event>, i: nat, j: nat)
    requires i <= j <= |more|
    ensures Spent(more, i) <= Spent(more, j)
    ensures j == i + 1 ==> Spent(more, j) == Spent(more, i) + if more[i].Elapse? then more[i].duration else 0
    decreases j
  {
    if i < j {
      SpentGrows(more, i, j - 1);
      assert more[..j][..j - 1] == more[..j - 1];
    }
  }

  /** The first moment by which `bound` has passed. */
  lemma FirstAfter(more: seq<Event>, bound: nat) returns (i: nat)
    requires bound <= Elapsed(more)
    ensures i <= |more| && bound <= Spent(more, i) && forall x | 0 <= x < i :: Spent(more, x) < bound
  {
    i := 0;
    assert more[..|more|] == more;
    while Spent(more, i) < bound
      invariant i <= |more| && forall x | 0 <= x < i :: Spent(more, x) < bound
      decreases |more| - i
    {
      i := i + 1;
    }
  }

  /** A script of some node other than `h` runs there. */
  ghost predicate ScriptRuns(events: seq<Event>, more: seq<Event>, k: int, h: NodeId) {
    0 <= k < |more| && (more[k].RunScript? || more[k].RunStray?) && more[k].n != h
    && var c := Run(events + more[..k]);
       Enabled(c, more[k]) && c.nodes[more[k].n].lease > 0
  }

  ghost predicate ScriptBetween(events: seq<Event>, more: seq<Event>, h: NodeId, i: int, j: int) {
    exists k :: i <= k < j && ScriptRuns(events, more, k, h)
  }

  predicate IsStretch(more: seq<Event>, i: int, j: int, r: nat) {
    0 <= i <= j <= |more| && Spent(more, i) + r <= Spent(more, j)
  }

  /** In every stretch as long as `r` some other node's script runs. */
  ghost predicate ScriptsEvery(events: seq<Event>, more: seq<Event>, h: NodeId, r: nat) {
    forall i, j :: IsStretch(more, i, j, r) ==> ScriptBetween(events, more, h, i, j)
  }

  /** A dead leader is replaced in time: if some other node's script runs at least every `r`, then within the
      rest of the dead leader's lease and `r` more another node holds the key. */
  lemma TakeoverWithin(events: seq<Event>, more: seq<Event>, h: NodeId, rest: nat, r: nat) returns (k: nat)
    requires Run(events).key.Owned? && Run(events).key.owner == h && forall e | e in more :: !ScriptOf(e, h)
    requires Run(events).key.expiresAt <= Run(events).now + rest
    requires rest + r <= Elapsed(more) && ScriptsEvery(events, more, h, r)
    ensures k < |more| && Spent(more, k + 1) <= rest + r
    ensures var d := Run(events + more[..k + 1]);
            Holder(d.key, d.now).Some? && Holder(d.key, d.now) != Some(h)
  {
    var s, j := Stretch(more, rest, r);
    assert ScriptBetween(events, more, h, s, j);
    k :| s <= k < j && ScriptRuns(events, more, k, h);
    SpentGrows(more, k, k + 1);
    ScriptReplaces(events, more, h, k, rest);
  }

  /** A stretch of `r` that begins no later than `rest`; anything in it but the passing of time comes after `rest`. */
  lemma Stretch(more: seq<Event>, rest: nat, r: nat) returns (s: nat, j: nat)
    requires rest + r <= Elapsed(more)
    ensures IsStretch(more, s, j, r)
    ensures forall k | s <= k < j && !more[k].Elapse? :: rest <= Spent(more, k) && Spent(more, k) <= rest + r
  {
    var i := FirstAfter(more, rest);
    s := if i == 0 then 0 else i - 1;
    assert more[..|more|] == more && Spent(more, s) <= rest;
    SpentGrows(more, s, i);
    j := FirstAfter(more, Spent(more, s) + r);
    if j < s {
      SpentGrows(more, j, s);
      j := s;
    }
    forall k | s <= k < j && !more[k].Elapse?
      ensures rest <= Spent(more, k) && Spent(more, k) <= rest + r
    {
      SpentGrows(more, k, k + 1);
      if i <= k {
        SpentGrows(more, i, k);
      }
    }
  }

  lemma ScriptReplaces(events: seq<Event>, more: seq<Event>, h: NodeId, k: nat, rest: nat)
    requires Run(events).key.Owned? && Run(events).key.owner == h && forall e | e in more :: !ScriptOf(e, h)
    requires Run(events).key.expiresAt <= Run(events).now + rest
    requires ScriptRuns(events, more, k, h) && rest <= Spent(more, k)
    ensures var d := Run(events + more[..k + 1]);
            Holder(d.key, d.now).Some? && Holder(d.key, d.now) != Some(h)
  {
    assert forall e | e in more[..k] :: e in more;
    ClaimNotRenewed(events, more[..k], h);
    assert events + more[..k + 1] == (events + more[..k]) + [more[k]];
    RunSnoc(events + more[..k], more[k]);
  }

  /** Some node that has not joined yet. */
  lemma {:induction false} Newcomer(nodes: set<NodeId>) returns (m: NodeId)
    ensures m !in nodes && forall x | x in nodes :: x < m
  {
    if x :| x in nodes {
      var rest := Newcomer(nodes - {x});
      m := if x < rest then rest else x + 1;
      assert forall y | y in nodes :: y == x || y in nodes - {x};
    } else {
      m := 0;
    }
  }

  /** The protocol steps one maintenance round goes through. */
  function RoundSteps(n: NodeId, call: Call): seq<Event> {
    match call
    case Served => [BeginTick(n), RunScript(n), HandleReply(n)]
    case Unserved => [BeginTick(n), CallFails(n, false)]
    case ReplyLost => [BeginTick(n), RunScript(n), CallFails(n, false)]
    case Cancelled(served) => if served then [BeginTick(n), RunScript(n), LoopCancelled(n, false)]
                              else [BeginTick(n), LoopCancelled(n, false)]
  }

  function Steps(c: Cluster, events: seq<Event>): Cluster
    decreases |events|
  {
    if events == [] then c else Steps(Step(c, events[0]), events[1..])
  }

  /** Run without interruption, the steps leave exactly what `Coordinator.MaintenanceRound` ensures. */
  lemma RoundIsItsSteps(c: Cluster, n: NodeId, call: Call)
    requires n in c.nodes && c.nodes[n].stage == Idle && !c.nodes[n].stopped
    ensures var d := Steps(c, RoundSteps(n, call));
            && n in d.nodes && d.now == c.now
            && d.key == (if TakesEffect(call) then Acquire(c.key, c.now, n, c.nodes[n].lease).0 else c.key)
            && d.nodes[n].isLeader == (match call
                                       case Served => Acquire(c.key, c.now, n, c.nodes[n].lease).1
                                       case Cancelled(_) => c.nodes[n].isLeader
                                       case _ => false)
            && (d.nodes[n].stage == Exited <==> call.Cancelled?)
  {
    var steps := RoundSteps(n, call);
    var c1 := Step(c, steps[0]);
    var c2 := Step(c1, steps[1]);
    assert Steps(c, steps) == Steps(c1, steps[1..]) == Steps(c2, steps[1..][1..]);
    if |steps| == 3 {
      assert steps[1..][1..] == [steps[2]];
      assert Steps(c2, [steps[2]]) == Steps(Step(c2, steps[2]), []);
    } else {
      assert steps[1..][1..] == [];
    }
  }

  /** A leader that stalls for a whole lease leaves two live nodes both reporting leadership,
      so "exactly one instance at any moment" holds of fresh nodes only. */
  lemma StalledLeaderOverlaps(lease: nat) returns (events: seq<Event>)
    ensures Leads(Run(events), 1) && Leads(Run(events), 2)
    ensures !Fresh(Run(events), 1)
    ensures Run(events).now == lease && Run(events).nodes.Keys == {1, 2}
    ensures forall n | n in Run(events).nodes ::
              Run(events).nodes[n].lease == lease && 0 <= Run(events).nodes[n].settledFrom
  {
    var first := ThenElected([], 1, lease);
    RunElected([], 1, lease);
    RunSnoc(first, Elapse(lease));
    events := ThenElected(first + [Elapse(lease)], 2, lease);
    RunElected(first + [Elapse(lease)], 2, lease);
  }

  /** Every node was given the same lease. */
  ghost predicate AllLease(c: Cluster, lease: nat) {
    forall n | n in c.nodes :: c.nodes[n].lease == lease
  }

  /** Each leader's last call that it saw through began less than `age` ago: a node can tell from its own
      records, without knowing when Redis ran the script. */
  ghost predicate LeadersWithin(c: Cluster, age: nat) {
    forall n | n in c.nodes && Leads(c, n) :: c.now < c.nodes[n].settledFrom + age
  }

  ghost predicate OneLeader(c: Cluster) {
    forall a, b :: Leads(c, a) && Leads(c, b) ==> a == b
  }

  /** "One leader at any moment" is guaranteed by limiting the age of leaders' last settled calls exactly
      when the limit is at most the lease. */
  lemma OneLeaderIff(lease: nat, age: nat)
    requires lease > 0
    ensures (forall events :: AllLease(Run(events), lease) && LeadersWithin(Run(events), age) ==>
                     OneLeader(Run(events)))
            <==> age <= lease
  {
    if age <= lease {
      forall events | AllLease(Run(events), lease) && LeadersWithin(Run(events), age)
        ensures OneLeader(Run(events))
      {
        forall a, b | Leads(Run(events), a) && Leads(Run(events), b)
          ensures a == b
        {
          PromptMeansOneLeader(events, a, b);
        }
      }
    } else {
      var events := StalledLeaderOverlaps(lease);
      assert AllLease(Run(events), lease) && LeadersWithin(Run(events), age);
      assert !OneLeader(Run(events));
    }
  }

  /** A stopped node never clears its flag: after its release another node leads beside it. */
  lemma StoppedNodeKeepsFlag(lease: nat) returns (events: seq<Event>)
    requires lease > 0
    ensures var c := Run(events);
            && 1 in c.nodes && c.nodes[1].isLeader && c.nodes[1].stopped
            && Leads(c, 2) && Fresh(c, 2)
  {
    var first := ThenElected([], 1, lease);
    var stopping := first + [StopNode(1)];
    var released := stopping + [ReleaseLease(1)];
    RunElected([], 1, lease);
    RunSnoc(first, StopNode(1));
    RunSnoc(stopping, ReleaseLease(1));
    events := ThenElected(released, 2, lease);
    RunElected(released, 2, lease);
  }
}
