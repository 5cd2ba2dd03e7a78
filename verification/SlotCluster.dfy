/** Cluster-wide concurrency slots: one Redis sorted set per job, scored by expiry time.

    Nodes read their own clocks, in whole seconds, before asking; Redis keeps the set and its key
    timeout. All times are milliseconds on the Redis clock unless they are scores or readings. */
module SlotCluster {

  type SlotId = nat

  const MILLIS := 1000
  const KEY_GRACE_SECONDS := 60

  datatype SlotSet = SlotSet(scores: map<SlotId, int>, keyExpiresAt: int)

  /** What the commands see: an expired key reads as the empty set. */
  function Visible(s: SlotSet, now: int): map<SlotId, int> {
    if now < s.keyExpiresAt then s.scores else map[]
  }

  /** The members left after removing the score range from 0 to `clock`. */
  function Purged(scores: map<SlotId, int>, clock: int): map<SlotId, int> {
    map id | id in scores && !(0 <= scores[id] <= clock) :: scores[id]
  }

  /** The acquire script: purge what has expired by the caller's clock, then reserve if there is room. */
  function Reserve(s: SlotSet, now: int, clock: int, max: int, ttl: nat, id: SlotId): (SlotSet, bool) {
    var live := Purged(Visible(s, now), clock);
    if |live| < max
    then (SlotSet(live[id := clock + ttl], now + (ttl + KEY_GRACE_SECONDS) * MILLIS), true)
    else (SlotSet(live, s.keyExpiresAt), false)
  }

  /** The sorted set as the script works on it. */
  class SlotKey {
    var scores: map<SlotId, int>
    var keyExpiresAt: int
    var now: int

    constructor (now: int)
      ensures scores == map[] && keyExpiresAt == now && this.now == now
    {
      scores, keyExpiresAt, this.now := map[], now, now;
    }

    ghost function Contents(): SlotSet
      reads this
    {
      SlotSet(scores, keyExpiresAt)
    }

    method AcquireSlot(clock: int, maxConcurrency: int, ttl: nat, id: SlotId) returns (result: int)
      modifies this`scores, this`keyExpiresAt
      ensures (Contents(), result == 1) == Reserve(old(Contents()), now, clock, maxConcurrency, ttl, id)
      ensures result == 0 || result == 1
      ensures maxConcurrency >= 0 && |old(scores)| <= maxConcurrency ==> |scores| <= maxConcurrency
    {
      ghost var before := Visible(Contents(), now);
      scores := if now < keyExpiresAt then scores else map[];
      PurgeShrinks(scores, clock);
      scores := Purged(scores, clock);            // ZREMRANGEBYSCORE
      var current := |scores|;                    // ZCARD
      if current < maxConcurrency {
        scores := scores[id := clock + ttl];      // ZADD
        keyExpiresAt := now + (ttl + KEY_GRACE_SECONDS) * MILLIS;  // EXPIRE
        return 1;
      }
      return 0;
    }

    method Remove(id: SlotId)
      modifies this`scores
      ensures scores == old(scores) - {id}
    {
      scores := scores - {id};
    }
  }

  /** Slot lifetimes are sent in whole seconds, at least one. */
  function TtlSeconds(ttlMillis: int): nat {
    if ttlMillis < MILLIS then 1 else ttlMillis / MILLIS
  }

  /** A node's side of the call: its own clock, in whole seconds, goes along. */
  method TryAcquireSlot(key: SlotKey, reading: int, maxConcurrency: int, ttlMillis: int, id: SlotId)
    returns (granted: bool)
    modifies key`scores, key`keyExpiresAt
    ensures (key.Contents(), granted)
            == Reserve(old(key.Contents()), key.now, Seconds(reading), maxConcurrency, TtlSeconds(ttlMillis), id)
    ensures granted ==>
              && id in key.scores
              && var lifetime := key.scores[id] - reading / 1000;
                 && lifetime >= 1
                 && (if ttlMillis < 1000 then lifetime == 1 else lifetime * 1000 <= ttlMillis < (lifetime + 1) * 1000)
                 && key.keyExpiresAt == key.now + (lifetime + 60) * 1000
  {
    var clock := Seconds(reading);
    var ttlSeconds := TtlSeconds(ttlMillis);
    var result := key.AcquireSlot(clock, maxConcurrency, ttlSeconds, id);
    granted := result == 1;
  }

  /** What a reservation does, member by member: the expired go, the others stay, and the new one comes in
      exactly if fewer than `max` stay. */
  lemma ReserveEffect(s: SlotSet, now: int, clock: int, max: int, ttl: nat, id: SlotId)
    ensures var (after, ok) := Reserve(s, now, clock, max, ttl, id);
            var stay := set x | x in s.scores && now < s.keyExpiresAt && !(0 <= s.scores[x] <= clock);
            && (ok <==> |stay| < max)
            && (forall x :: x in after.scores <==> x in stay || (ok && x == id))
            && (forall x | x in after.scores ::
                  after.scores[x] == if ok && x == id then clock + ttl else s.scores[x])
            && after.keyExpiresAt == (if ok then now + (ttl + 60) * 1000 else s.keyExpiresAt)
  {
    var stay := set x | x in s.scores && now < s.keyExpiresAt && !(0 <= s.scores[x] <= clock);
    var live := Purged(Visible(s, now), clock);
    assert live.Keys == stay;
    assert |live| == |live.Keys|;
    assert forall x | x in live :: live[x] == s.scores[x];
  }

  lemma PurgeShrinks(scores: map<SlotId, int>, clock: int)
    ensures |Purged(scores, clock)| <= |scores|
  {
    var live := Purged(scores, clock);
    SubsetIsSmaller(live.Keys, scores.Keys);
  }

  lemma SubsetIsSmaller(a: set<SlotId>, b: set<SlotId>)
    requires a <= b
    ensures |a| <= |b|
  {
    assert b == a + (b - a);
  }

  // ---- every interleaving ----

  /** One job: the cap, the slot lifetime in seconds, and how far node clocks may be off Redis's. */
  datatype Config = Config(cap: nat, ttl: nat, lo: int, hi: int)

  /** `Asking`: request sent. `Abandoned`: the caller gave up, the request may still run.
      `Running`: granted, its run in flight. `Over`: refused, finished, or granted in vain. */
  datatype Phase = Asking | Abandoned | Running | Over

  datatype Slot = Slot(phase: Phase, begunAt: int, reading: int)

  datatype Cluster = Cluster(now: int, set_: SlotSet, slots: map<SlotId, Slot>)

  datatype Event =
    | Elapse(duration: nat)
    | Begin(id: SlotId, reading: int)
    | RunScript(id: SlotId)
    | GiveUp(id: SlotId)
    | Finish(id: SlotId)
    | RemoveMember(id: SlotId)
    | KeyExpires

  function Seconds(millis: int): int {
    millis / MILLIS
  }

  predicate Enabled(cfg: Config, c: Cluster, e: Event) {
    match e
    case Elapse(_) => true
    case Begin(id, reading) => id !in c.slots && c.now + cfg.lo <= reading <= c.now + cfg.hi
    case RunScript(id) => id in c.slots && (c.slots[id].phase == Asking || c.slots[id].phase == Abandoned)
    case GiveUp(id) => id in c.slots && (c.slots[id].phase == Asking || c.slots[id].phase == Running)
    case Finish(id) => id in c.slots && c.slots[id].phase == Running
    case RemoveMember(id) => id in c.slots && c.slots[id].phase == Over
    case KeyExpires => c.set_.keyExpiresAt <= c.now
  }

  function SetPhase(c: Cluster, id: SlotId, phase: Phase): Cluster
    requires id in c.slots
  {
    c.(slots := c.slots[id := c.slots[id].(phase := phase)])
  }

  function Step(cfg: Config, c: Cluster, e: Event): Cluster {
    if !Enabled(cfg, c, e) then c
    else
      match e
      case Elapse(d) => c.(now := c.now + d)
      case Begin(id, reading) => c.(slots := c.slots[id := Slot(Asking, c.now, reading)])
      case RunScript(id) =>
        var (s, ok) := Reserve(c.set_, c.now, Seconds(c.slots[id].reading), cfg.cap, cfg.ttl, id);
        SetPhase(c.(set_ := s), id, if ok && c.slots[id].phase == Asking then Running else Over)
      case GiveUp(id) => SetPhase(c, id, if c.slots[id].phase == Asking then Abandoned else Over)
      case Finish(id) => SetPhase(c, id, Over)
      case RemoveMember(id) => c.(set_ := c.set_.(scores := c.set_.scores - {id}))
      case KeyExpires => c.(set_ := c.set_.(scores := map[]))
  }

  function Start(now: int): Cluster {
    Cluster(now, SlotSet(map[], now), map[])
  }

  function Run(cfg: Config, start: int, events: seq<Event>): Cluster {
    if events == [] then Start(start) else Step(cfg, Run(cfg, start, events[..|events| - 1]), events[|events| - 1])
  }

  // ---- what every run keeps ----

  /** The longest age at which a run's slot is sure to be still in the set: the lifetime, less the
      clock spread, less one second for reading clocks in whole seconds. */
  function SafeAge(cfg: Config): int {
    cfg.ttl * MILLIS - (cfg.hi - cfg.lo) - MILLIS
  }

  ghost predicate InFlight(c: Cluster, id: SlotId) {
    id in c.slots && c.slots[id].phase == Running
  }

  ghost predicate Young(cfg: Config, c: Cluster, id: SlotId) {
    InFlight(c, id) && c.now - c.slots[id].begunAt <= SafeAge(cfg)
  }

  ghost function RunsInFlight(c: Cluster): set<SlotId> {
    set id | id in c.slots && InFlight(c, id)
  }

  ghost function YoungRuns(cfg: Config, c: Cluster): set<SlotId> {
    set id | id in c.slots && Young(cfg, c, id)
  }

  ghost predicate SlotInvariant(cfg: Config, c: Cluster) {
    && |c.set_.scores| <= cfg.cap
    && (forall id | id in c.slots ::
          && c.slots[id].begunAt <= c.now
          && c.slots[id].begunAt + cfg.lo <= c.slots[id].reading <= c.slots[id].begunAt + cfg.hi)
    && (forall id | id in c.set_.scores ::
          && id in c.slots
          && c.set_.scores[id] == Seconds(c.slots[id].reading) + cfg.ttl
          && c.set_.keyExpiresAt >= c.slots[id].begunAt + (cfg.ttl + KEY_GRACE_SECONDS) * MILLIS)
    && (forall id | id in c.slots :: Young(cfg, c, id) ==> id in c.set_.scores)
  }

  /** No clock reading purges a slot that is within the safe age. */
  lemma YoungOutlivesPurge(cfg: Config, now: int, slot: Slot, reading: int)
    requires slot.begunAt + cfg.lo <= slot.reading
    requires reading <= now + cfg.hi
    requires now - slot.begunAt <= SafeAge(cfg)
    ensures Seconds(reading) < Seconds(slot.reading) + cfg.ttl
  {
    assert MILLIS * Seconds(slot.reading) > slot.reading - MILLIS;
    assert MILLIS * Seconds(reading) <= reading;
  }

  /** The set a script leaves still holds every young run. */
  lemma ScriptKeepsYoung(cfg: Config, c: Cluster, id: SlotId, x: SlotId)
    requires SlotInvariant(cfg, c) && Enabled(cfg, c, RunScript(id)) && cfg.lo <= cfg.hi
    requires x in c.slots && x != id && Young(cfg, c, x)
    ensures x in Purged(Visible(c.set_, c.now), Seconds(c.slots[id].reading))
  {
    assert x in Visible(c.set_, c.now);
    YoungOutlivesPurge(cfg, c.now, c.slots[x], c.slots[id].reading);
  }

  lemma ScriptKeepsSlots(cfg: Config, c: Cluster, id: SlotId)
    requires SlotInvariant(cfg, c) && Enabled(cfg, c, RunScript(id)) && cfg.lo <= cfg.hi
    ensures SlotInvariant(cfg, Step(cfg, c, RunScript(id)))
  {
    var d := Step(cfg, c, RunScript(id));
    PurgeShrinks(Visible(c.set_, c.now), Seconds(c.slots[id].reading));
    forall x | x in d.slots && Young(cfg, d, x)
      ensures x in d.set_.scores
    {
      if x != id {
        ScriptKeepsYoung(cfg, c, id, x);
      }
    }
  }

  lemma KeyExpiryKeepsSlots(cfg: Config, c: Cluster)
    requires SlotInvariant(cfg, c) && cfg.lo <= cfg.hi && c.set_.keyExpiresAt <= c.now
    ensures SlotInvariant(cfg, c.(set_ := c.set_.(scores := map[])))
  {
    forall id | id in c.slots
      ensures !Young(cfg, c, id)
    {
      if id in c.set_.scores {
        assert c.set_.keyExpiresAt >= c.slots[id].begunAt + (cfg.ttl + KEY_GRACE_SECONDS) * MILLIS;
      }
    }
  }

  /** Time passing and runs starting to ask, ending or giving up make no run young. */
  lemma PhaseChangeKeepsSlots(cfg: Config, c: Cluster, d: Cluster)
    requires SlotInvariant(cfg, c) && d.set_ == c.set_ && c.now <= d.now
    requires forall id | id in c.slots :: id in d.slots
               && d.slots[id].begunAt == c.slots[id].begunAt && d.slots[id].reading == c.slots[id].reading
               && (d.slots[id].phase == Running ==> c.slots[id].phase == Running)
    requires forall id | id in d.slots && id !in c.slots ::
               && d.slots[id].phase == Asking && d.slots[id].begunAt == d.now
               && d.now + cfg.lo <= d.slots[id].reading <= d.now + cfg.hi
    ensures SlotInvariant(cfg, d)
  {
    forall id | id in d.slots && Young(cfg, d, id)
      ensures id in d.set_.scores
    {
      assert Young(cfg, c, id);
    }
  }

  lemma RemovalKeepsSlots(cfg: Config, c: Cluster, id: SlotId)
    requires SlotInvariant(cfg, c) && id in c.slots && c.slots[id].phase == Over
    ensures SlotInvariant(cfg, c.(set_ := c.set_.(scores := c.set_.scores - {id})))
  {
    SubsetIsSmaller((c.set_.scores - {id}).Keys, c.set_.scores.Keys);
  }

  lemma StepKeepsSlots(cfg: Config, c: Cluster, e: Event)
    requires SlotInvariant(cfg, c) && cfg.lo <= cfg.hi
    ensures SlotInvariant(cfg, Step(cfg, c, e))
  {
    var d := Step(cfg, c, e);
    if Enabled(cfg, c, e) {
      match e {
        case RunScript(id) => ScriptKeepsSlots(cfg, c, id);
        case RemoveMember(id) => RemovalKeepsSlots(cfg, c, id);
        case KeyExpires => KeyExpiryKeepsSlots(cfg, c);
        case Elapse(_) => PhaseChangeKeepsSlots(cfg, c, d);
        case Begin(_, _) => PhaseChangeKeepsSlots(cfg, c, d);
        case GiveUp(_) => PhaseChangeKeepsSlots(cfg, c, d);
        case Finish(_) => PhaseChangeKeepsSlots(cfg, c, d);
      }
    }
  }

  lemma {:induction false} RunKeepsSlots(cfg: Config, start: int, events: seq<Event>)
    requires cfg.lo <= cfg.hi
    ensures SlotInvariant(cfg, Run(cfg, start, events))
  {
    if events != [] {
      RunKeepsSlots(cfg, start, events[..|events| - 1]);
      StepKeepsSlots(cfg, Run(cfg, start, events[..|events| - 1]), events[|events| - 1]);
    }
  }

  /** In every run the set stays within the cap, and so do the runs in flight that are still young. */
  lemma YoungRunsWithinCap(cfg: Config, start: int, events: seq<Event>)
    requires cfg.lo <= cfg.hi
    ensures var c := Run(cfg, start, events);
            && |c.set_.scores| <= cfg.cap
            && |YoungRuns(cfg, c)| <= cfg.cap
  {
    RunKeepsSlots(cfg, start, events);
    var c := Run(cfg, start, events);
    SubsetIsSmaller(YoungRuns(cfg, c), c.set_.scores.Keys);
  }

  /** With every run kept within the safe age, a job never has more runs in flight than its cap. */
  lemma ShortRunsNeverExceedCap(cfg: Config, start: int, events: seq<Event>)
    requires cfg.lo <= cfg.hi
    requires var c := Run(cfg, start, events);
             forall id | id in c.slots && InFlight(c, id) :: c.now - c.slots[id].begunAt <= SafeAge(cfg)
    ensures var c := Run(cfg, start, events);
            |RunsInFlight(c)| <= cfg.cap
  {
    YoungRunsWithinCap(cfg, start, events);
    var c := Run(cfg, start, events);
    assert RunsInFlight(c) == YoungRuns(cfg, c);
  }

  /** The key's own timeout never drops a member younger than the slot lifetime and a minute. */
  lemma KeyTimeoutIsLate(cfg: Config, start: int, events: seq<Event>, id: SlotId)
    requires cfg.lo <= cfg.hi
    requires var c := Run(cfg, start, events); id in c.set_.scores && c.set_.keyExpiresAt <= c.now
    ensures var c := Run(cfg, start, events);
            id in c.slots && c.now - c.slots[id].begunAt >= (cfg.ttl + KEY_GRACE_SECONDS) * MILLIS
  {
    RunKeepsSlots(cfg, start, events);
  }

  // ---- the age bound cannot be raised ----

  lemma RunSnoc(cfg: Config, start: int, events: seq<Event>, e: Event)
    ensures Run(cfg, start, events + [e]) == Step(cfg, Run(cfg, start, events), e)
  {
    assert (events + [e])[..|events|] == events;
  }

  ghost predicate AllWithin(c: Cluster, age: nat) {
    forall id | id in c.slots && InFlight(c, id) :: c.now - c.slots[id].begunAt <= age
  }

  /** Limiting the age of runs keeps every job within its cap exactly when the limit is at most the safe
      age: the bound cannot be raised by a millisecond, whatever the cap, lifetime and clock spread. */
  lemma AgeLimitIff(cfg: Config, age: nat)
    requires cfg.lo <= cfg.hi && cfg.cap >= 1 && cfg.ttl >= 1
    ensures (forall start, events :: AllWithin(Run(cfg, start, events), age) ==>
                     |RunsInFlight(Run(cfg, start, events))| <= cfg.cap)
            <==> age <= SafeAge(cfg)
  {
    if age <= SafeAge(cfg) {
      forall start, events | AllWithin(Run(cfg, start, events), age)
        ensures |RunsInFlight(Run(cfg, start, events))| <= cfg.cap
      {
        ShortRunsNeverExceedCap(cfg, start, events);
      }
    } else {
      Overfill(cfg, age);
    }
  }

  /** The same in the terms a caller knows: a cap, a slot lifetime in milliseconds, and how far clocks are off. */
  lemma AgeLimitInMillis(cap: nat, ttlMillis: int, lo: int, hi: int, age: nat)
    requires lo <= hi && cap >= 1
    ensures (forall start, events ::
               AllWithin(Run(Config(cap, TtlSeconds(ttlMillis), lo, hi), start, events), age)
               ==> |RunsInFlight(Run(Config(cap, TtlSeconds(ttlMillis), lo, hi), start, events))| <= cap)
            <==> age <= (if ttlMillis < 1000 then 1000 else ttlMillis - ttlMillis % 1000) - (hi - lo) - 1000
  {
    AgeLimitIff(Config(cap, TtlSeconds(ttlMillis), lo, hi), age);
  }

  /** The first `n` slots asked for and granted, all at one moment. */
  function Filling(n: nat): seq<Event> {
    if n == 0 then [] else Filling(n - 1) + [Begin(n, 999)] + [RunScript(n)]
  }

  function Grants(ttl: nat, n: nat): map<SlotId, int> {
    if n == 0 then map[] else Grants(ttl, n - 1)[n := ttl]
  }

  function GrantedSlots(now: int, n: nat): map<SlotId, Slot> {
    if n == 0 then map[] else GrantedSlots(now, n - 1)[n := Slot(Running, now, 999)]
  }

  lemma {:induction false} GrantsAre(ttl: nat, now: int, n: nat)
    ensures |Grants(ttl, n)| == n && |GrantedSlots(now, n)| == n
    ensures forall id :: id in Grants(ttl, n) <==> 1 <= id <= n
    ensures forall id :: id in GrantedSlots(now, n) <==> 1 <= id <= n
    ensures forall id | 1 <= id <= n :: Grants(ttl, n)[id] == ttl && GrantedSlots(now, n)[id] == Slot(Running, now, 999)
  {
    if n > 0 {
      GrantsAre(ttl, now, n - 1);
    }
  }

  /** `n` slots granted at one moment. */
  ghost predicate Filled(cfg: Config, c: Cluster, start: int, n: nat) {
    && c.now == start && c.set_.scores == Grants(cfg.ttl, n) && c.slots == GrantedSlots(start, n)
    && (n > 0 ==> start < c.set_.keyExpiresAt)
  }

  lemma FillOneMore(cfg: Config, c: Cluster, start: int, n: nat)
    requires cfg.lo <= cfg.hi && cfg.ttl >= 1 && 0 < n <= cfg.cap && start == 999 - cfg.lo
    requires Filled(cfg, c, start, n - 1)
    ensures Filled(cfg, Step(cfg, Step(cfg, c, Begin(n, 999)), RunScript(n)), start, n)
  {
    GrantsAre(cfg.ttl, start, n - 1);
    assert Visible(c.set_, start) == c.set_.scores;
    assert Purged(c.set_.scores, 0) == c.set_.scores;
  }

  lemma {:induction false} FilledUp(cfg: Config, start: int, n: nat)
    requires cfg.lo <= cfg.hi && cfg.ttl >= 1 && n <= cfg.cap && start == 999 - cfg.lo
    ensures Filled(cfg, Run(cfg, start, Filling(n)), start, n)
  {
    if n > 0 {
      FilledUp(cfg, start, n - 1);
      RunSnoc(cfg, start, Filling(n - 1), Begin(n, 999));
      RunSnoc(cfg, start, Filling(n - 1) + [Begin(n, 999)], RunScript(n));
      FillOneMore(cfg, Run(cfg, start, Filling(n - 1)), start, n);
    }
  }

  /** A clock at least a lifetime ahead finds every slot expired. */
  lemma LateGrant(cfg: Config, c: Cluster, id: SlotId, reading: int)
    requires cfg.cap >= 1 && id !in c.slots && c.now + cfg.lo <= reading <= c.now + cfg.hi
    requires reading >= cfg.ttl * MILLIS
    requires forall x | x in c.set_.scores :: c.set_.scores[x] == cfg.ttl
    ensures var d := Step(cfg, Step(cfg, c, Begin(id, reading)), RunScript(id));
            d.now == c.now && d.slots == c.slots[id := Slot(Running, c.now, reading)]
  {
    assert Purged(Visible(c.set_, c.now), Seconds(reading)) == map[];
  }

  /** Fill the set, wait, and ask once more with the fastest clock. */
  lemma OneMoreAfter(cfg: Config, start: int, wait: nat) returns (events: seq<Event>)
    requires cfg.lo <= cfg.hi && cfg.cap >= 1 && cfg.ttl >= 1 && start == 999 - cfg.lo
    requires start + wait + cfg.hi >= cfg.ttl * MILLIS
    ensures var c := Run(cfg, start, events);
            && c.now == start + wait
            && c.slots == GrantedSlots(start, cfg.cap)[cfg.cap + 1 := Slot(Running, c.now, c.now + cfg.hi)]
  {
    var n, reading := cfg.cap + 1, start + wait + cfg.hi;
    FilledUp(cfg, start, cfg.cap);
    GrantsAre(cfg.ttl, start, cfg.cap);
    var waited := Filling(cfg.cap) + [Elapse(wait)];
    RunSnoc(cfg, start, Filling(cfg.cap), Elapse(wait));
    LateGrant(cfg, Run(cfg, start, waited), n, reading);
    var asked := waited + [Begin(n, reading)];
    events := asked + [RunScript(n)];
    RunSnoc(cfg, start, waited, Begin(n, reading));
    RunSnoc(cfg, start, asked, RunScript(n));
  }

  lemma Overfill(cfg: Config, age: nat)
    requires cfg.lo <= cfg.hi && cfg.cap >= 1 && cfg.ttl >= 1 && age > SafeAge(cfg)
    ensures exists start, events ::
              AllWithin(Run(cfg, start, events), age) && |RunsInFlight(Run(cfg, start, events))| > cfg.cap
  {
    var start, wait := 999 - cfg.lo, if SafeAge(cfg) < 0 then 0 else SafeAge(cfg) + 1;
    var events := OneMoreAfter(cfg, start, wait);
    var c := Run(cfg, start, events);
    AllInFlight(c, start, cfg.cap, Slot(Running, c.now, c.now + cfg.hi), age);
  }

  lemma AllInFlight(c: Cluster, start: int, n: nat, last: Slot, age: nat)
    requires c.slots == GrantedSlots(start, n)[n + 1 := last] && last.phase == Running && last.begunAt == c.now
    requires c.now - start <= age
    ensures AllWithin(c, age) && |RunsInFlight(c)| == n + 1
  {
    GrantsAre(0, start, n);
    assert RunsInFlight(c) == GrantedSlots(start, n).Keys + {n + 1};
    assert |GrantedSlots(start, n).Keys| == n;
  }
}
