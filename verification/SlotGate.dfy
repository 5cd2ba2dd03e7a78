/** Concurrency permission for one job on one node: a local counter first, then a cluster slot.

    The classes follow the code call by call; the state machine after them interleaves any number of
    callers at the points where the code can be preempted. */
module SlotGate {
  import SlotCluster

  const INT_MAX: int := 0x7FFF_FFFF

  function EffectiveMax(maxConcurrency: int): int {
    if maxConcurrency <= 0 then INT_MAX else maxConcurrency
  }

  class ConcurrencyTracker {
    const max: int
    var current: int

    ghost predicate Valid()
      reads this
    {
      0 <= current <= max && 1 <= max
    }

    constructor (maxConcurrency: int)
      ensures Valid() && current == 0 && max == EffectiveMax(maxConcurrency)
      ensures max == if maxConcurrency >= 1 then maxConcurrency else 2147483647
    {
      max := if maxConcurrency <= 0 then INT_MAX else maxConcurrency;
      current := 0;
    }

    method CompareExchange(value: int, comparand: int) returns (seen: int)
      modifies this`current
      ensures seen == old(current)
      ensures current == if old(current) == comparand then value else old(current)
    {
      seen := current;
      if current == comparand {
        current := value;
      }
    }

    method TryAcquire() returns (ok: bool)
      requires Valid()
      modifies this`current
      ensures Valid()
      ensures ok <==> old(current) < max
      ensures current == old(current) + (if ok then 1 else 0)
    {
      var acquired := false;
      while !acquired
        invariant !acquired ==> current == old(current)
        invariant acquired ==> current == old(current) + 1 <= max
        decreases !acquired
      {
        var c := current;
        if c >= max {
          return false;
        }
        var seen := CompareExchange(c + 1, c);
        acquired := seen == c;
      }
      ok := true;
    }

    method Release()
      modifies this`current
      ensures current == old(current) - 1
    {
      current := current - 1;
    }
  }

  /** The cluster half of a slot. Removing the member may fail; the failure is swallowed. */
  class RemoteSlot {
    const key: SlotCluster.SlotKey
    const id: SlotCluster.SlotId
    var disposed: bool

    constructor (key: SlotCluster.SlotKey, id: SlotCluster.SlotId)
      ensures this.key == key && this.id == id && !disposed
    {
      this.key, this.id, disposed := key, id, false;
    }

    method Dispose(served: bool)
      modifies this, key
      ensures disposed
      ensures key.scores == if !old(disposed) && served then old(key.scores) - {id} else old(key.scores)
      ensures key.keyExpiresAt == old(key.keyExpiresAt) && key.now == old(key.now)
    {
      if disposed {
        return;
      }
      disposed := true;
      if served {
        key.Remove(id);
      }
    }
  }

  /** Both halves. Disposing twice releases once; the local half is released even if the remote call fails. */
  class JobSlot {
    const tracker: ConcurrencyTracker
    const remote: RemoteSlot?
    var disposed: bool

    constructor (tracker: ConcurrencyTracker, remote: RemoteSlot?)
      ensures this.tracker == tracker && this.remote == remote && !disposed
    {
      this.tracker, this.remote, disposed := tracker, remote, false;
    }

    method Dispose(served: bool)
      modifies this, tracker, remote, if remote != null then {remote.key} else {}
      ensures disposed
      ensures tracker.current == old(tracker.current) - (if old(disposed) then 0 else 1)
      ensures remote != null ==>
                && remote.disposed == (old(remote.disposed) || !old(disposed))
                && remote.key.scores == (if !old(disposed) && !old(remote.disposed) && served
                                         then old(remote.key.scores) - {remote.id} else old(remote.key.scores))
                && remote.key.keyExpiresAt == old(remote.key.keyExpiresAt) && remote.key.now == old(remote.key.now)
    {
      if disposed {
        return;
      }
      disposed := true;
      if remote != null {
        remote.Dispose(served);
      }
      tracker.Release();
    }
  }

  /** What the cluster coordinator's acquire call comes to. */
  datatype Reply = Granted | Refused | Throws

  /** How the remote call goes: the script runs and answers, or the call throws, before or after the script ran. */
  datatype Call = Answered | ThrowsUnserved | ThrowsServed

  datatype Permission = Held | AtCapacity | Failed

  function ReplyTo(call: Call, granted: bool): Reply {
    match call
    case Answered => if granted then Granted else Refused
    case _ => Throws
  }

  /** What the gate decides from the local counter and the cluster's reply. */
  function Decision(current: int, max: int, maxConcurrency: int, reply: Reply): Permission {
    if current >= max then AtCapacity
    else if maxConcurrency >= INT_MAX || reply == Granted then Held
    else if reply == Refused then AtCapacity
    else Failed
  }

  class JobSlotGate {
    /** Local first, then the cluster for a finite cap; a refusal or an error gives the local half back. The
        cluster's set is asked only after the local half was got, and only for a finite cap. */
    method TryAcquire(tracker: ConcurrencyTracker, maxConcurrency: int, key: SlotCluster.SlotKey, reading: int,
                      ttlMillis: int, id: SlotCluster.SlotId, call: Call)
      returns (p: Permission, slot: JobSlot?)
      requires tracker.Valid()
      modifies tracker`current, key`scores, key`keyExpiresAt
      ensures tracker.Valid()
      ensures var asked := old(tracker.current) < tracker.max && maxConcurrency < INT_MAX;
              var (set_, granted) := SlotCluster.Reserve(
                old(key.Contents()), key.now, SlotCluster.Seconds(reading), maxConcurrency,
                SlotCluster.TtlSeconds(ttlMillis), id);
              && key.Contents() == (if asked && call != ThrowsUnserved then set_ else old(key.Contents()))
              && p == Decision(old(tracker.current), tracker.max, maxConcurrency, ReplyTo(call, granted))
              && (p == Held <==>
                    old(tracker.current) < tracker.max
                    && (maxConcurrency >= 2147483647 || (call == Answered && granted)))
              && (p == Failed <==>
                    old(tracker.current) < tracker.max && maxConcurrency < 2147483647 && call != Answered)
      ensures tracker.current == old(tracker.current) + (if p == Held then 1 else 0)
      ensures p == Held <==> slot != null
      ensures slot != null ==>
                && fresh(slot) && slot.tracker == tracker && !slot.disposed
                && (slot.remote != null <==> maxConcurrency < INT_MAX)
                && (slot.remote != null ==> slot.remote.key == key && slot.remote.id == id && !slot.remote.disposed)
    {
      slot := null;
      var ok := tracker.TryAcquire();
      if !ok {
        return AtCapacity, null;
      }
      var remote: RemoteSlot? := null;
      if maxConcurrency < INT_MAX {
        var granted := false;
        if call != ThrowsUnserved {
          granted := SlotCluster.TryAcquireSlot(key, reading, maxConcurrency, ttlMillis, id);
        }
        if call != Answered {
          tracker.Release();
          return Failed, null;
        }
        if granted {
          remote := new RemoteSlot(key, id);
        }
        if remote == null {
          tracker.Release();
          return AtCapacity, null;
        }
      }
      slot := new JobSlot(tracker, remote);
      p := Held;
    }
  }

  /** A cap of zero or less means "no limit" locally but can never reserve in the cluster: a reservation
      is possible at all exactly when the cap is at least one. */
  lemma ReservableIffPositive(maxConcurrency: int)
    ensures EffectiveMax(maxConcurrency) >= 1
    ensures maxConcurrency >= 1 <==>
            exists s: SlotCluster.SlotSet, now: int, clock: int, ttl: nat, id: SlotCluster.SlotId ::
              SlotCluster.Reserve(s, now, clock, maxConcurrency, ttl, id).1
  {
    var empty := SlotCluster.SlotSet(map[], 0);
    assert SlotCluster.Purged(SlotCluster.Visible(empty, 0), 0) == map[];
    assert SlotCluster.Reserve(empty, 0, 0, maxConcurrency, 0, 0).1 == (maxConcurrency >= 1);
  }

  // ---- every interleaving of callers ----

  type Caller = nat

  /** Where a caller is. `Counted`: its increment is in, the cluster has not answered. `RollingBack`: the
      cluster said no or threw. `Holding`: it has a slot. `Disposing`: the disposed flag is set. */
  datatype Point
    = Idle | Looked(seen: int) | Counted | RollingBack(threw: bool) | Holding | Disposing | Done(p: Permission)

  datatype Record = Record(at: Point, increments: nat, decrements: nat)

  datatype Gate = Gate(current: int, callers: map<Caller, Record>)

  datatype Event =
    | Arrive(t: Caller)
    | Look(t: Caller)
    | Swap(t: Caller)
    | Answer(t: Caller, reply: Reply)
    | RollBack(t: Caller)
    | Dispose(t: Caller)
    | FinishDispose(t: Caller)

  function Place(g: Gate, t: Caller, at: Point): Gate
    requires t in g.callers
  {
    g.(callers := g.callers[t := g.callers[t].(at := at)])
  }

  function Add(g: Gate, t: Caller): Gate
    requires t in g.callers
  {
    Gate(g.current + 1, g.callers[t := g.callers[t].(increments := g.callers[t].increments + 1)])
  }

  function Subtract(g: Gate, t: Caller): Gate
    requires t in g.callers
  {
    Gate(g.current - 1, g.callers[t := g.callers[t].(decrements := g.callers[t].decrements + 1)])
  }

  /** One preemptible step; an event that does not apply changes nothing. Disposing a slot again, by
      anyone and at any time, is such an event. */
  function Step(maxConcurrency: int, g: Gate, e: Event): Gate {
    if e.Arrive? then (if e.t in g.callers then g else g.(callers := g.callers[e.t := Record(Idle, 0, 0)]))
    else if e.t !in g.callers then g
    else
      match (e, g.callers[e.t].at)
      case (Look(t), Idle) =>
        if g.current >= EffectiveMax(maxConcurrency) then Place(g, t, Done(AtCapacity))
        else Place(g, t, Looked(g.current))
      case (Swap(t), Looked(c)) => if g.current == c then Place(Add(g, t), t, Counted) else Place(g, t, Idle)
      case (Answer(t, reply), Counted) =>
        if maxConcurrency >= INT_MAX || reply == Granted then Place(g, t, Holding)
        else Place(g, t, RollingBack(reply == Throws))
      case (RollBack(t), RollingBack(threw)) => Place(Subtract(g, t), t, Done(if threw then Failed else AtCapacity))
      case (Dispose(t), Holding) => Place(g, t, Disposing)
      case (FinishDispose(t), Disposing) => Place(Subtract(g, t), t, Done(Held))
      case _ => g
  }

  const OPEN := Gate(0, map[])

  function Run(maxConcurrency: int, events: seq<Event>): Gate {
    if events == [] then OPEN
    else Step(maxConcurrency, Run(maxConcurrency, events[..|events| - 1]), events[|events| - 1])
  }

  /** The caller's increment is in and its decrement is not. */
  predicate Occupies(at: Point) {
    at.Counted? || at.RollingBack? || at.Holding? || at.Disposing?
  }

  ghost function Occupants(g: Gate): set<Caller> {
    set t | t in g.callers && Occupies(g.callers[t].at)
  }

  ghost function Holders(g: Gate): set<Caller> {
    set t | t in g.callers && g.callers[t].at.Holding?
  }

  ghost predicate GateInvariant(maxConcurrency: int, g: Gate) {
    && g.current == |Occupants(g)|
    && 0 <= g.current <= EffectiveMax(maxConcurrency)
    && forall t | t in g.callers :: Balanced(maxConcurrency, g.callers[t])
  }

  /** What a caller has added and taken back goes with where it is. */
  predicate Balanced(maxConcurrency: int, r: Record) {
    && r.increments == r.decrements + (if Occupies(r.at) then 1 else 0)
    && r.increments <= 1
    && (r.at.Looked? ==> r.at.seen < EffectiveMax(maxConcurrency))
    && (r.at == Done(Held) || r.at == Done(Failed) ==> r.decrements == 1)
    && (r.at == Idle || r.at.Looked? ==> r.increments == 0)
  }

  predicate Occupied(g: Gate, t: Caller) {
    t in g.callers && Occupies(g.callers[t].at)
  }

  lemma OccupantsChange(g: Gate, h: Gate, t: Caller)
    requires t in h.callers && h.callers == g.callers[t := h.callers[t]]
    ensures |Occupants(h)| == |Occupants(g)| + (if Occupied(h, t) then 1 else 0) - (if Occupied(g, t) then 1 else 0)
    ensures Occupied(g, t) ==> |Occupants(g)| >= 1
  {
    var others := Occupants(g) - {t};
    assert Occupants(g) == if Occupied(g, t) then others + {t} else others;
    assert Occupants(h) == if Occupied(h, t) then others + {t} else others;
  }

  lemma StepKeepsBalance(maxConcurrency: int, g: Gate, e: Event)
    requires forall t | t in g.callers :: Balanced(maxConcurrency, g.callers[t])
    ensures var h := Step(maxConcurrency, g, e);
            && (forall t | t in h.callers :: Balanced(maxConcurrency, h.callers[t]))
            && (h != g ==> e.t in h.callers && h.callers == g.callers[e.t := h.callers[e.t]])
  {
  }

  /** The counter moves with the caller, and goes up only from below the cap. */
  lemma StepMovesCount(maxConcurrency: int, g: Gate, e: Event)
    requires forall t | t in g.callers :: Balanced(maxConcurrency, g.callers[t])
    requires 0 <= g.current <= EffectiveMax(maxConcurrency)
    ensures var h := Step(maxConcurrency, g, e);
            && h.current == g.current + (if Occupied(h, e.t) then 1 else 0) - (if Occupied(g, e.t) then 1 else 0)
            && h.current <= EffectiveMax(maxConcurrency)
  {
  }

  lemma StepKeepsCount(maxConcurrency: int, g: Gate, e: Event)
    requires GateInvariant(maxConcurrency, g)
    ensures GateInvariant(maxConcurrency, Step(maxConcurrency, g, e))
  {
    StepKeepsBalance(maxConcurrency, g, e);
    StepMovesCount(maxConcurrency, g, e);
    if Step(maxConcurrency, g, e) != g {
      OccupantsChange(g, Step(maxConcurrency, g, e), e.t);
    }
  }

  lemma {:induction false} RunKeepsCount(maxConcurrency: int, events: seq<Event>)
    ensures GateInvariant(maxConcurrency, Run(maxConcurrency, events))
  {
    if events != [] {
      RunKeepsCount(maxConcurrency, events[..|events| - 1]);
      StepKeepsCount(maxConcurrency, Run(maxConcurrency, events[..|events| - 1]), events[|events| - 1]);
    }
  }

  /** In every interleaving the counter is the number of slots held or in transit and stays within the cap. */
  lemma CountIsOccupancy(maxConcurrency: int, events: seq<Event>)
    ensures var g := Run(maxConcurrency, events);
            && g.current == |Occupants(g)|
            && |Holders(g)| <= |Occupants(g)| <= EffectiveMax(maxConcurrency)
  {
    RunKeepsCount(maxConcurrency, events);
    var g := Run(maxConcurrency, events);
    SlotCluster.SubsetIsSmaller(Holders(g), Occupants(g));
  }

  /** For a job with a cap: never more callers hold or await a slot than the cap says, in every interleaving. */
  lemma CapIsKept(maxConcurrency: int, events: seq<Event>)
    requires maxConcurrency >= 1
    ensures var g := Run(maxConcurrency, events); |Holders(g)| <= |Occupants(g)| <= maxConcurrency
  {
    CountIsOccupancy(maxConcurrency, events);
  }

  /** And nobody is turned away while there is room: a caller who looks is refused exactly when as many as the
      cap hold or await one, and one who swaps and then is granted has a slot. */
  lemma RoomIsGiven(maxConcurrency: int, events: seq<Event>, t: Caller)
    requires maxConcurrency >= 1
    requires t in Run(maxConcurrency, events).callers && Run(maxConcurrency, events).callers[t].at == Idle
    ensures var g := Run(maxConcurrency, events);
            var a := Step(maxConcurrency, g, Look(t));
            var b := Step(maxConcurrency, a, Swap(t));
            var c := Step(maxConcurrency, b, Answer(t, Granted));
            && (a.callers[t].at == Done(AtCapacity) <==> |Occupants(g)| == maxConcurrency)
            && (|Occupants(g)| < maxConcurrency ==> c.callers[t].at == Holding && c.current == g.current + 1)
  {
    CapIsKept(maxConcurrency, events);
    CountIsOccupancy(maxConcurrency, events);
  }

  /** What a caller whose increment is in is told: a slot without asking the cluster if the cap is the largest
      integer, otherwise what the cluster said; an error stays an error. */
  lemma AnswerMeans(maxConcurrency: int, g: Gate, t: Caller, reply: Reply)
    requires t in g.callers && g.callers[t].at == Counted
    ensures var at := Step(maxConcurrency, g, Answer(t, reply)).callers[t].at;
            var end := Step(maxConcurrency, Step(maxConcurrency, g, Answer(t, reply)), RollBack(t));
            && (at == Holding <==> maxConcurrency >= 2147483647 || reply == Granted)
            && (at != Holding ==> end.current == g.current - 1)
            && (end.callers[t].at == Done(AtCapacity) <==> maxConcurrency < 2147483647 && reply == Refused)
            && (end.callers[t].at == Done(Failed) <==> maxConcurrency < 2147483647 && reply == Throws)
  {
  }

  /** A finished caller has given back exactly what it took: once if it ever counted, however often its
      slot was disposed; and when nobody is in transit or holding, the counter is back at zero. */
  lemma ReleasedExactlyOnce(maxConcurrency: int, events: seq<Event>, t: Caller)
    requires t in Run(maxConcurrency, events).callers
    ensures var r := Run(maxConcurrency, events).callers[t];
            && (r.at.Done? ==> r.decrements == r.increments)
            && (r.at == Done(Held) ==> r.decrements == 1)
            && r.decrements <= 1
    ensures (forall x | x in Run(maxConcurrency, events).callers :: Run(maxConcurrency, events).callers[x].at.Done?)
            ==> Run(maxConcurrency, events).current == 0
  {
    RunKeepsCount(maxConcurrency, events);
    var g := Run(maxConcurrency, events);
    if forall x | x in g.callers :: g.callers[x].at.Done? {
      assert Occupants(g) == {};
    }
  }

  /** One caller alone takes the same steps as `JobSlotGate.TryAcquire`, with the same result and count. */
  lemma AloneIsTryAcquire(maxConcurrency: int, g: Gate, t: Caller, reply: Reply)
    requires t !in g.callers && 0 <= g.current <= EffectiveMax(maxConcurrency)
    ensures var a := Step(maxConcurrency, g, Arrive(t));
            var b := Step(maxConcurrency, a, Look(t));
            var c := Step(maxConcurrency, b, Swap(t));
            var d := Step(maxConcurrency, c, Answer(t, reply));
            var e := Step(maxConcurrency, d, RollBack(t));
            var p := Decision(g.current, EffectiveMax(maxConcurrency), maxConcurrency, reply);
            && e.callers[t].at == (if p == Held then Holding else Done(p))
            && e.current == g.current + (if p == Held then 1 else 0)
  {
  }
}
