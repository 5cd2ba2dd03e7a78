/** One job over a whole cluster history: leadership terms of any nodes, one after the other.

    `FailoverAccount` needs only that terms do not overlap. `LeasedTermsDoNotOverlap` gets that from the
    lease protocol, for terms in which the node stayed within its lease, with every node's clock
    agreeing with Redis's. */
module ClusterSchedule {
  import opened Scheduler
  import LeaderLease

  /** A term as seen by one job. */
  datatype Span = Span(start: Time, track: Track)

  ghost predicate Succession(occurrences: iset<Time>, spans: seq<Span>) {
    && (forall k | 0 <= k < |spans| :: Covers(occurrences, spans[k].start, spans[k].track))
    && (forall k | 0 < k < |spans| :: EndsBefore(spans[k - 1], spans[k]))
  }

  predicate EndsBefore(a: Span, b: Span) {
    a.track.horizon <= b.start
  }

  lemma {:induction false} LaterTermsStartLater(occurrences: iset<Time>, spans: seq<Span>, k: nat, l: nat)
    requires Succession(occurrences, spans) && k < l < |spans|
    ensures spans[k].track.horizon <= spans[l].start
    decreases l
  {
    assert EndsBefore(spans[l - 1], spans[l]);
    assert Covers(occurrences, spans[l - 1].start, spans[l - 1].track);
    if k < l - 1 {
      LaterTermsStartLater(occurrences, spans, k, l - 1);
    }
  }

  ghost predicate ReachedBy(spans: seq<Span>, k: int, i: int, u: Time) {
    0 <= k < |spans| && 0 <= i < |spans[k].track.attempts| && Reaches(spans[k].track.attempts[i], u)
  }

  /** After one term's last tick and up to the next term's start. */
  ghost predicate InGap(spans: seq<Span>, k: int, u: Time) {
    0 <= k < |spans| - 1 && spans[k].track.horizon < u <= spans[k + 1].start
  }

  /** The term an occurrence belongs to: the last one that started before it. */
  lemma {:induction false} TermOf(spans: seq<Span>, u: Time) returns (k: nat)
    requires spans != [] && spans[0].start < u
    ensures k < |spans| && spans[k].start < u
    ensures k + 1 < |spans| ==> u <= spans[k + 1].start
  {
    var n := |spans| - 1;
    if n == 0 || spans[n].start < u {
      k := n;
    } else {
      k := TermOf(spans[..n], u);
    }
  }

  /** No occurrence is attempted twice anywhere in the cluster, however leadership moved. */
  lemma AttemptedAtMostOnce(occurrences: iset<Time>, spans: seq<Span>, u: Time, k: nat, i: nat, l: nat, j: nat)
    requires Succession(occurrences, spans)
    requires ReachedBy(spans, k, i, u) && ReachedBy(spans, l, j, u)
    ensures k == l && i == j
  {
    if k < l {
      OneAfterTheOther(occurrences, spans, k, i, l, j);
    } else if l < k {
      OneAfterTheOther(occurrences, spans, l, j, k, i);
    } else if i < j {
      AttemptsAdvance(occurrences, spans[k].start, spans[k].track, i, j);
    } else if j < i {
      AttemptsAdvance(occurrences, spans[k].start, spans[k].track, j, i);
    }
  }

  lemma OneAfterTheOther(occurrences: iset<Time>, spans: seq<Span>, k: nat, i: nat, l: nat, j: nat)
    requires Succession(occurrences, spans) && k < l < |spans|
    requires i < |spans[k].track.attempts| && j < |spans[l].track.attempts|
    ensures spans[k].track.attempts[i].at < spans[l].track.attempts[j].due
  {
    LaterTermsStartLater(occurrences, spans, k, l);
    assert Covers(occurrences, spans[k].start, spans[k].track);
    FirstAttemptAfterStart(occurrences, spans[l].start, spans[l].track, j);
  }

  /** Across any number of failovers, an occurrence is attempted exactly when it does not fall between
      one term's last tick and the next term's start. */
  lemma FailoverAccount(occurrences: iset<Time>, spans: seq<Span>, u: Time)
    requires Succession(occurrences, spans) && spans != []
    requires u in occurrences && spans[0].start < u <= spans[|spans| - 1].track.horizon
    ensures (exists k, i :: ReachedBy(spans, k, i, u)) <==> !(exists k :: InGap(spans, k, u))
  {
    var k := TermOf(spans, u);
    if u <= spans[k].track.horizon {
      var i := ExactlyOneAttempt(occurrences, spans[k].start, spans[k].track, u);
      assert ReachedBy(spans, k, i, u);
      forall g | InGap(spans, g, u)
        ensures false
      {
        ReachedIsNotInGap(occurrences, spans, u, k, i, g);
      }
    } else {
      assert InGap(spans, k, u);
      forall l, i | ReachedBy(spans, l, i, u)
        ensures false
      {
        ReachedIsNotInGap(occurrences, spans, u, l, i, k);
      }
    }
  }

  lemma ReachedIsNotInGap(occurrences: iset<Time>, spans: seq<Span>, u: Time, k: int, i: int, g: int)
    requires Succession(occurrences, spans) && ReachedBy(spans, k, i, u)
    ensures !InGap(spans, g, u)
  {
    assert Covers(occurrences, spans[k].start, spans[k].track);
    FirstAttemptAfterStart(occurrences, spans[k].start, spans[k].track, i);
    if 0 <= g < |spans| - 1 {
      assert Covers(occurrences, spans[g + 1].start, spans[g + 1].track);
      if k < g {
        LaterTermsStartLater(occurrences, spans, k, g);
        assert Covers(occurrences, spans[g].start, spans[g].track);
      } else if g + 1 < k {
        LaterTermsStartLater(occurrences, spans, g + 1, k);
      }
    }
  }

  ghost predicate SpanReaches(span: Span, u: Time) {
    exists a :: a in span.track.attempts && Reaches(a, u)
  }

  /** When terms do overlap: two of them both attempt an occurrence exactly when it lies after both
      starts and up to both horizons. */
  lemma AttemptedTwiceIff(occurrences: iset<Time>, a: Span, b: Span, u: Time)
    requires Covers(occurrences, a.start, a.track) && Covers(occurrences, b.start, b.track) && u in occurrences
    ensures SpanReaches(a, u) && SpanReaches(b, u)
            <==> Max(a.start, b.start) < u && u <= a.track.horizon && u <= b.track.horizon
  {
    ReachedIffInside(occurrences, a, u);
    ReachedIffInside(occurrences, b, u);
  }

  lemma ReachedIffInside(occurrences: iset<Time>, span: Span, u: Time)
    requires Covers(occurrences, span.start, span.track) && u in occurrences
    ensures SpanReaches(span, u) <==> span.start < u <= span.track.horizon
  {
    var attempts := span.track.attempts;
    if span.start < u <= span.track.horizon {
      var i := ExactlyOneAttempt(occurrences, span.start, span.track, u);
      assert attempts[i] in attempts;
    }
    if SpanReaches(span, u) {
      var i :| 0 <= i < |attempts| && Reaches(attempts[i], u);
      FirstAttemptAfterStart(occurrences, span.start, span.track, i);
    }
  }

  // ---- the terms one loop goes through ----

  /** What a loop's terms say of one job. */
  function JobSpans(terms: seq<Term>, job: JobName): (spans: seq<Span>)
    requires forall k | 0 <= k < |terms| :: job in terms[k].tracks
  {
    seq(|terms|, k requires 0 <= k < |terms| => Span(terms[k].start, terms[k].tracks[job]))
  }

  /** With readings that never go back, a loop's terms are a succession for every enabled job. */
  lemma LoopTermsSucceed(loop: Loop, i: nat)
    requires loop.Valid() && loop.steady && i < |loop.jobs| && loop.jobs[i].enabled
    ensures forall k | 0 <= k < |loop.terms| :: loop.jobs[i].name in loop.terms[k].tracks
    ensures Succession(loop.schedule(loop.jobs[i].name), JobSpans(loop.terms, loop.jobs[i].name))
  {
    var jobs, terms := loop.jobs, loop.terms;
    forall k | 0 <= k < |terms|
      ensures jobs[i].name in terms[k].tracks
      ensures Covers(loop.schedule(jobs[i].name), terms[k].start, terms[k].tracks[jobs[i].name])
    {
      assert SoundTerm(loop.schedule, jobs, terms[k]);
      assert SoundTrack(loop.schedule, jobs[i], terms[k]);
    }
    var spans := JobSpans(terms, jobs[i].name);
    forall k | 0 < k < |spans|
      ensures EndsBefore(spans[k - 1], spans[k])
    {
      assert EndsBy(jobs, terms[k - 1], terms[k].start);
    }
  }

  /** However often leadership comes and goes, a loop never attempts an occurrence twice. */
  lemma LoopAttemptsAtMostOnce(loop: Loop, job: nat, u: Time, k: nat, i: nat, l: nat, j: nat)
    requires loop.Valid() && loop.steady && job < |loop.jobs| && loop.jobs[job].enabled
    requires forall m | 0 <= m < |loop.terms| :: loop.jobs[job].name in loop.terms[m].tracks
    requires ReachedBy(JobSpans(loop.terms, loop.jobs[job].name), k, i, u)
    requires ReachedBy(JobSpans(loop.terms, loop.jobs[job].name), l, j, u)
    ensures k == l && i == j
  {
    LoopTermsSucceed(loop, job);
    AttemptedAtMostOnce(loop.schedule(loop.jobs[job].name), JobSpans(loop.terms, loop.jobs[job].name), u, k, i, l, j);
  }

  /** And since its first term it has attempted exactly the occurrences outside the gaps between terms. */
  lemma LoopAccount(loop: Loop, job: nat, u: Time)
    requires loop.Valid() && loop.steady && job < |loop.jobs| && loop.jobs[job].enabled && loop.terms != []
    requires forall m | 0 <= m < |loop.terms| :: loop.jobs[job].name in loop.terms[m].tracks
    requires var spans := JobSpans(loop.terms, loop.jobs[job].name);
             && u in loop.schedule(loop.jobs[job].name)
             && spans[0].start < u <= spans[|spans| - 1].track.horizon
    ensures var spans := JobSpans(loop.terms, loop.jobs[job].name);
            (exists k, i :: ReachedBy(spans, k, i, u)) <==> !(exists k :: InGap(spans, k, u))
  {
    LoopTermsSucceed(loop, job);
    FailoverAccount(loop.schedule(loop.jobs[job].name), JobSpans(loop.terms, loop.jobs[job].name), u);
  }

  // ---- terms under the lease protocol ----

  /** A term of one node between two points of a run of the lease protocol. */
  datatype Tenure = Tenure(node: LeaderLease.NodeId, from: nat, to: nat, track: Track)

  function ClusterAt(events: seq<LeaderLease.Event>, k: nat): LeaderLease.Cluster
    requires k <= |events|
  {
    LeaderLease.Run(events[..k])
  }

  /** The node leads and stays within its lease from the term's start to its last tick. */
  ghost predicate HeldThroughout(events: seq<LeaderLease.Event>, t: Tenure) {
    && t.from <= t.to <= |events|
    && (forall k | t.from <= k <= t.to ::
          LeaderLease.Leads(ClusterAt(events, k), t.node) && LeaderLease.Fresh(ClusterAt(events, k), t.node))
    && t.track.horizon <= ClusterAt(events, t.to).now
  }

  function SpanOf(events: seq<LeaderLease.Event>, t: Tenure): Span
    requires t.from <= |events|
  {
    Span(ClusterAt(events, t.from).now, t.track)
  }

  function SpansOf(events: seq<LeaderLease.Event>, tenures: seq<Tenure>): (spans: seq<Span>)
    requires forall x | 0 <= x < |tenures| :: tenures[x].from <= |events|
    ensures |spans| == |tenures| && forall x | 0 <= x < |spans| :: spans[x] == SpanOf(events, tenures[x])
  {
    if tenures == [] then []
    else SpansOf(events, tenures[..|tenures| - 1]) + [SpanOf(events, tenures[|tenures| - 1])]
  }

  lemma {:induction false} ClockAdvances(events: seq<LeaderLease.Event>, i: nat, j: nat)
    requires i <= j <= |events|
    ensures ClusterAt(events, i).now <= ClusterAt(events, j).now
    decreases j
  {
    if i < j {
      ClockAdvances(events, i, j - 1);
      assert events[..j][..j - 1] == events[..j - 1];
    }
  }

  /** Two different nodes cannot both be within their leases at one moment, so their terms are apart. */
  lemma LeasedTermsDoNotOverlap(events: seq<LeaderLease.Event>, a: Tenure, b: Tenure)
    requires HeldThroughout(events, a) && HeldThroughout(events, b)
    requires a.from <= b.from && (a.node == b.node ==> a.to < b.from)
    ensures a.to < b.from
    ensures EndsBefore(SpanOf(events, a), SpanOf(events, b))
  {
    var c := ClusterAt(events, b.from);
    assert LeaderLease.Fresh(c, b.node);
    if a.node != b.node {
      LeaderLease.AtMostOneFreshNode(events[..b.from], a.node, b.node);
      assert !LeaderLease.Fresh(c, a.node);
    }
    ClockAdvances(events, a.to, b.from);
  }

  /** Election and scheduling together: whatever the interleaving of ticks, delays, losses and stops, no
      occurrence is attempted twice in the cluster by nodes within their leases. */
  lemma LeasedClusterFiresOnce(events: seq<LeaderLease.Event>, occurrences: iset<Time>, tenures: seq<Tenure>,
                               u: Time, k: nat, i: nat, l: nat, j: nat)
    requires forall x | 0 <= x < |tenures| ::
               HeldThroughout(events, tenures[x])
               && Covers(occurrences, ClusterAt(events, tenures[x].from).now, tenures[x].track)
    requires forall x, y | 0 <= x < y < |tenures| ::
               && tenures[x].from <= tenures[y].from
               && (tenures[x].node == tenures[y].node ==> tenures[x].to < tenures[y].from)
    requires k < |tenures| && i < |tenures[k].track.attempts| && Reaches(tenures[k].track.attempts[i], u)
    requires l < |tenures| && j < |tenures[l].track.attempts| && Reaches(tenures[l].track.attempts[j], u)
    ensures k == l && i == j
  {
    assert forall x | 0 <= x < |tenures| :: HeldThroughout(events, tenures[x]);
    var spans := SpansOf(events, tenures);
    forall x | 0 < x < |spans|
      ensures EndsBefore(spans[x - 1], spans[x])
    {
      LeasedTermsDoNotOverlap(events, tenures[x - 1], tenures[x]);
    }
    AttemptedAtMostOnce(occurrences, spans, u, k, i, l, j);
  }
}
