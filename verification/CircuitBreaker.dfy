// The per-stage circuit breaker: a three-state machine with a rolling failure window
// and one reserved probe. Each method of the class is proved against a step function
// on breaker values; what the breaker guarantees is proved about runs of those steps.
module CircuitBreaker {
  import opened Common

  datatype CircuitState = Closed | Open | HalfOpen

  datatype Config = Config(threshold: int, window: real, cooldown: real) {
    predicate Valid() {
      threshold >= 1 && window >= 1.0 && cooldown >= 0.0
    }
  }

  /** The value of one stage's breaker. */
  datatype Circuit = Circuit(state: CircuitState, failures: seq<real>, openedAt: Option<real>, probeInFlight: bool)

  const FRESH := Circuit(Closed, [], None, false)

  // ---------- Steps ----------

  /** The failure deque after the stale entries at its head are popped. */
  function PopStale(q: seq<real>, cutoff: real): seq<real> {
    if q != [] && q[0] < cutoff then PopStale(q[1..], cutoff) else q
  }

  /** The breaker after a dispatch request, and whether the request is granted. */
  function Dispatched(cfg: Config, c: Circuit, now: real): (Circuit, bool) {
    match c.state
    case Closed => (c, true)
    case Open =>
      if c.openedAt.Some? && now - c.openedAt.value >= cfg.cooldown
      then (c.(state := HalfOpen, probeInFlight := true), true)
      else (c, false)
    case HalfOpen =>
      if !c.probeInFlight then (c.(probeInFlight := true), true) else (c, false)
  }

  function Cancelled(c: Circuit, now: real): Circuit {
    if c.state.HalfOpen? && c.probeInFlight
    then c.(state := Open, openedAt := Some(now), probeInFlight := false)
    else c
  }

  function Failed(cfg: Config, c: Circuit, now: real): Circuit {
    if c.state.HalfOpen? then Circuit(Open, [], Some(now), false)
    else
      var recent := PopStale(c.failures, now - cfg.window) + [now];
      if c.state.Closed? && |recent| >= cfg.threshold
      then c.(state := Open, failures := recent, openedAt := Some(now))
      else c.(failures := recent)
  }

  /** What every operation keeps: the probe is reserved exactly while the breaker is half open. */
  ghost predicate StateInvariant(cfg: Config, c: Circuit) {
    && (c.probeInFlight <==> c.state.HalfOpen?)
    && (c.openedAt.None? <==> c.state.Closed?)
    && (c.state.Closed? ==> |c.failures| < cfg.threshold)
  }

  // ---------- The class ----------

  class Breaker {
    var state: CircuitState
    var failures: seq<real>
    var openedAt: Option<real>
    var probeInFlight: bool

    constructor ()
      ensures Value() == FRESH
    {
      state, failures, openedAt, probeInFlight := Closed, [], None, false;
    }

    function Value(): Circuit
      reads this
    {
      Circuit(state, failures, openedAt, probeInFlight)
    }

    method AllowDispatch(config: Config, now: real) returns (granted: bool)
      modifies this
      ensures (Value(), granted) == Dispatched(config, old(Value()), now)
    {
      if state == Closed {
        return true;
      }
      if state == Open {
        if openedAt.Some? && now - openedAt.value >= config.cooldown {
          state := HalfOpen;
          probeInFlight := true;
          return true;
        }
        return false;
      }
      if !probeInFlight {
        probeInFlight := true;
        return true;
      }
      return false;
    }

    method CancelDispatch(now: real)
      modifies this
      ensures Value() == Cancelled(old(Value()), now)
    {
      if state == HalfOpen && probeInFlight {
        probeInFlight := false;
        state := Open;
        openedAt := Some(now);
      }
    }

    method SlideWindow(cutoff: real)
      modifies this`failures
      ensures failures == PopStale(old(failures), cutoff)
    {
      while failures != [] && failures[0] < cutoff
        invariant PopStale(failures, cutoff) == PopStale(old(failures), cutoff)
        decreases |failures|
      {
        failures := failures[1..];
      }
    }

    method RecordFailure(config: Config, now: real) returns (result: CircuitState)
      modifies this
      ensures Value() == Failed(config, old(Value()), now)
      ensures result == state
    {
      if state == HalfOpen {
        state := Open;
        openedAt := Some(now);
        probeInFlight := false;
        failures := [];
        return state;
      }
      SlideWindow(now - config.window);
      failures := failures + [now];
      if state == Closed && |failures| >= config.threshold {
        state := Open;
        openedAt := Some(now);
      }
      return state;
    }

    method RecordSuccess()
      modifies this
      ensures Value() == FRESH
    {
      state := Closed;
      openedAt := None;
      probeInFlight := false;
      failures := [];
    }
  }

  datatype Stage = Stage(name: string)

  class StageCircuitBreaker {
    const config: Config
    var breakers: map<Stage, Breaker>

    ghost predicate Valid()
      reads this, breakers.Values
    {
      && config.Valid()
      && (forall s, t :: s in breakers && t in breakers && s != t ==> breakers[s] != breakers[t])
      && forall s :: s in breakers ==> StateInvariant(config, breakers[s].Value())
    }

    /** The stages seen so far. */
    ghost function Seen(): set<Stage>
      reads this
    {
      breakers.Keys
    }

    /** A stage that was never seen reads as a fresh closed breaker. */
    ghost function At(stage: Stage): Circuit
      reads this, breakers.Values
    {
      if stage in breakers then breakers[stage].Value() else FRESH
    }

    constructor (failureThreshold: int := 3, windowSeconds: real := 120.0, cooldownSeconds: real := 60.0)
      ensures Valid() && Seen() == {}
      ensures config.threshold == Max(1, failureThreshold)
      ensures config.window == if windowSeconds < 1.0 then 1.0 else windowSeconds
      ensures config.cooldown == if cooldownSeconds < 0.0 then 0.0 else cooldownSeconds
    {
      config := Config(Max(1, failureThreshold),
                       if windowSeconds < 1.0 then 1.0 else windowSeconds,
                       if cooldownSeconds < 0.0 then 0.0 else cooldownSeconds);
      breakers := map[];
    }

    method Get(stage: Stage) returns (b: Breaker)
      requires Valid()
      modifies this
      ensures Valid() && stage in breakers && b == breakers[stage]
      ensures b.Value() == old(At(stage))
      ensures stage in old(breakers) ==> breakers == old(breakers)
      ensures stage !in old(breakers) ==> fresh(b) && breakers == old(breakers)[stage := b]
    {
      if stage in breakers {
        b := breakers[stage];
      } else {
        b := new Breaker();
        breakers := breakers[stage := b];
      }
    }

    /** A closed breaker lets everything through and stays as it is; an open one lets a probe through
        once its cooldown is over, and is half open from then on; a refusal changes nothing. */
    method AllowDispatch(stage: Stage, now: real) returns (granted: bool)
      requires Valid()
      modifies this, breakers.Values
      ensures Valid()
      ensures At(stage) == Dispatched(config, old(At(stage)), now).0 && Seen() == old(Seen()) + {stage}
      ensures forall t :: t != stage ==> At(t) == old(At(t))
      ensures granted == Dispatched(config, old(At(stage)), now).1
      ensures var c := old(At(stage));
        && (granted <==>
              c.state.Closed? || (c.state.Open? && c.openedAt.Some? && now - c.openedAt.value >= config.cooldown))
        && At(stage) == if granted && c.state.Open? then Circuit(HalfOpen, c.failures, c.openedAt, true) else c
    {
      var b := Get(stage);
      granted := b.AllowDispatch(config, now);
    }

    /** An unused probe reopens the breaker, and its cooldown starts again. */
    method CancelDispatch(stage: Stage, now: real)
      requires Valid()
      modifies this, breakers.Values
      ensures Valid()
      ensures At(stage) == Cancelled(old(At(stage)), now) && Seen() == old(Seen()) + {stage}
      ensures forall t :: t != stage ==> At(t) == old(At(t))
      ensures var c := old(At(stage));
        At(stage) == if c.state.HalfOpen? then Circuit(Open, c.failures, Some(now), false) else c
    {
      var b := Get(stage);
      b.CancelDispatch(now);
    }

    /** A failed probe reopens the breaker with an empty window. Otherwise the failure enters the
        window: a closed breaker opens when the window is full, and an open one stays open since the
        same moment. */
    method RecordFailure(stage: Stage, now: real) returns (state: CircuitState)
      requires Valid()
      modifies this, breakers.Values
      ensures Valid()
      ensures At(stage) == Failed(config, old(At(stage)), now) && Seen() == old(Seen()) + {stage}
      ensures forall t :: t != stage ==> At(t) == old(At(t))
      ensures var c, after := old(At(stage)), At(stage);
        && state == after.state
        && (c.state.HalfOpen? ==> after == Circuit(Open, [], Some(now), false))
        && (!c.state.HalfOpen? ==> after.failures == PopStale(c.failures, now - config.window) + [now])
        && (c.state.Open? ==> after == Circuit(Open, after.failures, c.openedAt, false))
        && (c.state.Closed? ==>
              after == if |after.failures| >= config.threshold then Circuit(Open, after.failures, Some(now), false)
                       else Circuit(Closed, after.failures, None, false))
    {
      var b := Get(stage);
      state := b.RecordFailure(config, now);
    }

    method RecordSuccess(stage: Stage)
      requires Valid()
      modifies this, breakers.Values
      ensures Valid()
      ensures At(stage) == Circuit(Closed, [], None, false) && Seen() == old(Seen()) + {stage}
      ensures forall t :: t != stage ==> At(t) == old(At(t))
    {
      var b := Get(stage);
      b.RecordSuccess();
    }

    method IsTripped(stage: Stage) returns (tripped: bool)
      requires Valid()
      modifies this
      ensures Valid()
      ensures tripped == !old(At(stage)).state.Closed?
      ensures At(stage) == old(At(stage)) && Seen() == old(Seen()) + {stage}
      ensures forall t :: t != stage ==> At(t) == old(At(t))
    {
      var b := Get(stage);
      tripped := b.state != Closed;
    }
  }

  // ---------- Runs ----------

  /** One locked operation. `at` is when the lock is held, `now` the clock reading that was
      taken before the lock was requested. */
  datatype Event =
    | Dispatch(at: real, now: real)
    | Cancel(at: real, now: real)
    | Failure(at: real, now: real)
    | Success(at: real, now: real)

  function Step(cfg: Config, c: Circuit, e: Event): Circuit {
    match e
    case Dispatch(_, now) => Dispatched(cfg, c, now).0
    case Cancel(_, now) => Cancelled(c, now)
    case Failure(_, now) => Failed(cfg, c, now)
    case Success(_, _) => FRESH
  }

  function Run(cfg: Config, c: Circuit, es: seq<Event>): Circuit {
    if es == [] then c else Step(cfg, Run(cfg, c, Front(es)), Last(es))
  }

  /** How many dispatches the run grants. */
  function Grants(cfg: Config, c: Circuit, es: seq<Event>): nat {
    if es == [] then 0
    else
      Grants(cfg, c, Front(es)) +
      if Last(es).Dispatch? && Dispatched(cfg, Run(cfg, c, Front(es)), Last(es).now).1 then 1 else 0
  }

  /** In every reachable state, whatever the clock readings: the probe is reserved exactly while
      the breaker is half open, so a half-open breaker never grants; a closed breaker holds
      fewer failures than the threshold. */
  lemma {:induction false} ReachableStates(cfg: Config, es: seq<Event>, now: real)
    requires cfg.Valid()
    ensures StateInvariant(cfg, Run(cfg, FRESH, es))
    ensures Run(cfg, FRESH, es).state.HalfOpen? ==> !Dispatched(cfg, Run(cfg, FRESH, es), now).1
    decreases |es|
  {
    if es != [] {
      ReachableStates(cfg, Front(es), now);
    }
  }

  /** In every reachable state a dispatch is granted exactly when the breaker is closed, or open with
      its cooldown over; only a grant while open changes the breaker. */
  lemma {:induction false} GrantedIff(cfg: Config, es: seq<Event>, now: real)
    requires cfg.Valid()
    ensures var c := Run(cfg, FRESH, es);
      && (Dispatched(cfg, c, now).1 <==>
            c.state.Closed? ||
            (c.state.Open? && c.openedAt.Some? && now - c.openedAt.value >= cfg.cooldown))
      && Dispatched(cfg, c, now).0 ==
        if c.state.Open? && Dispatched(cfg, c, now).1 then Circuit(HalfOpen, c.failures, c.openedAt, true) else c
  {
    ReachableStates(cfg, es, now);
  }

  function Dispatches(es: seq<Event>): nat {
    if es == [] then 0 else Dispatches(Front(es)) + if Last(es).Dispatch? then 1 else 0
  }

  /** A run that never trips grants every dispatch. */
  lemma {:induction false} UntrippedGrantsAll(cfg: Config, es: seq<Event>)
    requires cfg.Valid() && forall n :: 0 <= n <= |es| ==> Run(cfg, FRESH, es[..n]).state.Closed?
    ensures Grants(cfg, FRESH, es) == Dispatches(es)
    decreases |es|
  {
    if es != [] {
      var before := Front(es);
      forall n | 0 <= n <= |before| ensures Run(cfg, FRESH, before[..n]).state.Closed? {
        assert before[..n] == es[..n];
      }
      UntrippedGrantsAll(cfg, before);
      assert before == es[..|es| - 1];
      GrantedIff(cfg, before, Last(es).now);
    }
  }

  /** Nothing but a probe or a success ends an open period, and late failures do not extend it: the
      next dispatch is granted exactly when the cooldown since the opening is over. */
  lemma {:induction false} CooldownIsNotExtended(cfg: Config, c: Circuit, es: seq<Event>, now: real)
    requires cfg.Valid() && c.state.Open? && c.openedAt.Some?
    requires forall i :: 0 <= i < |es| ==>
      !es[i].Success? && (es[i].Dispatch? ==> es[i].now - c.openedAt.value < cfg.cooldown)
    ensures Run(cfg, c, es).state.Open? && Run(cfg, c, es).openedAt == c.openedAt
    ensures Dispatched(cfg, Run(cfg, c, es), now).1 <==> now - c.openedAt.value >= cfg.cooldown
    decreases |es|
  {
    if es != [] {
      CooldownIsNotExtended(cfg, c, Front(es), now);
    }
  }

  // ---------- The failure window ----------

  /** All failures recorded since the window was last cleared, by a success or by the failure
      of a half-open probe. */
  function History(cfg: Config, es: seq<Event>): seq<real> {
    if es == [] then []
    else HistoryStep(Run(cfg, FRESH, Front(es)), History(cfg, Front(es)), Last(es))
  }

  function HistoryStep(c: Circuit, h: seq<real>, e: Event): seq<real> {
    match e
    case Success(_, _) => []
    case Failure(_, now) => if c.state.HalfOpen? then [] else h + [now]
    case _ => h
  }

  /** The entries at or after the cutoff. */
  function Recent(h: seq<real>, cutoff: real): seq<real> {
    if h == [] then []
    else if Last(h) >= cutoff then Recent(Front(h), cutoff) + [Last(h)]
    else Recent(Front(h), cutoff)
  }

  predicate NonDecreasing(h: seq<real>) {
    forall i, j :: 0 <= i < j < |h| ==> h[i] <= h[j]
  }

  predicate ReadingsOrdered(es: seq<Event>) {
    forall i, j :: 0 <= i < j < |es| ==> es[i].now <= es[j].now
  }

  /** The deque `q` is what the cutoff leaves of the history `h`. */
  predicate Keeps(q: seq<real>, h: seq<real>, cutoff: real) {
    && |q| <= |h| && q == h[|h| - |q|..]
    && forall i :: 0 <= i < |h| - |q| ==> h[i] < cutoff
  }

  lemma {:induction false} PopStaleIsRecent(q: seq<real>, h: seq<real>, last: real, cutoff: real)
    requires NonDecreasing(h) && Keeps(q, h, last) && last <= cutoff
    ensures Keeps(PopStale(q, cutoff), h, cutoff)
    ensures PopStale(q, cutoff) == Recent(h, cutoff)
    decreases |q|
  {
    var d := |h| - |q|;
    if q != [] && q[0] < cutoff {
      assert q[1..] == h[d + 1..] && h[d] == q[0];
      PopStaleIsRecent(q[1..], h, cutoff, cutoff);
    } else {
      RecentOfOrdered(h, d, cutoff);
    }
  }

  lemma {:induction false} RecentOfOrdered(h: seq<real>, d: nat, cutoff: real)
    requires d <= |h|
    requires forall i :: 0 <= i < d ==> h[i] < cutoff
    requires forall i :: d <= i < |h| ==> h[i] >= cutoff
    ensures Recent(h, cutoff) == h[d..]
    decreases |h|
  {
    if h != [] {
      if d == |h| {
        RecentOfOrdered(Front(h), d - 1, cutoff);
      } else {
        RecentOfOrdered(Front(h), d, cutoff);
        assert h[d..] == Front(h)[d..] + [Last(h)];
      }
    }
  }

  /** What the deque and the history have in common at time `now`. */
  ghost predicate Refines(cfg: Config, q: seq<real>, h: seq<real>, now: real) {
    && NonDecreasing(h)
    && (forall i :: 0 <= i < |h| ==> h[i] <= now)
    && Keeps(q, h, now - cfg.window)
  }

  lemma RefinesLater(cfg: Config, q: seq<real>, h: seq<real>, now: real, later: real)
    requires Refines(cfg, q, h, now) && now <= later
    ensures Refines(cfg, q, h, later) && NonDecreasing(q)
    ensures Keeps(PopStale(q, later - cfg.window), h, later - cfg.window)
    ensures PopStale(q, later - cfg.window) == Recent(h, later - cfg.window)
  {
    PopStaleIsRecent(q, h, now - cfg.window, later - cfg.window);
    forall i, j | 0 <= i < j < |q| ensures q[i] <= q[j] {
      assert q[i] == h[|h| - |q| + i] && q[j] == h[|h| - |q| + j];
    }
  }

  lemma AppendRefines(cfg: Config, q: seq<real>, h: seq<real>, now: real)
    requires cfg.Valid() && Refines(cfg, q, h, now)
    ensures Refines(cfg, q + [now], h + [now], now)
  {
    var d := |h| - |q|;
    assert (h + [now])[d..] == h[d..] + [now];
  }

  lemma FailureRefines(cfg: Config, q: seq<real>, h: seq<real>, now: real)
    requires cfg.Valid() && Refines(cfg, q, h, now)
    ensures Refines(cfg, PopStale(q, now - cfg.window) + [now], h + [now], now)
  {
    RefinesLater(cfg, q, h, now, now);
    AppendRefines(cfg, PopStale(q, now - cfg.window), h, now);
  }

  lemma StepRefines(cfg: Config, c: Circuit, h: seq<real>, e: Event)
    requires cfg.Valid() && Refines(cfg, c.failures, h, e.now)
    ensures Refines(cfg, Step(cfg, c, e).failures, HistoryStep(c, h, e), e.now)
  {
    if e.Failure? && !c.state.HalfOpen? {
      FailureRefines(cfg, c.failures, h, e.now);
      assert Step(cfg, c, e).failures == PopStale(c.failures, e.now - cfg.window) + [e.now];
    } else {
      assert Step(cfg, c, e).failures == c.failures || Step(cfg, c, e).failures == [];
    }
  }

  /** With clock readings in lock order the deque refines the plain history: it is sorted, and
      sliding it to any cutoff at or after the last one leaves exactly the recent failures. */
  lemma {:induction false} DequeRefinesHistory(cfg: Config, es: seq<Event>, now: real)
    requires cfg.Valid() && ReadingsOrdered(es)
    requires es == [] || Last(es).now <= now
    ensures Refines(cfg, Run(cfg, FRESH, es).failures, History(cfg, es), now)
    ensures NonDecreasing(Run(cfg, FRESH, es).failures)
    ensures PopStale(Run(cfg, FRESH, es).failures, now - cfg.window) == Recent(History(cfg, es), now - cfg.window)
    decreases |es|
  {
    if es != [] {
      var before, e := Front(es), Last(es);
      assert ReadingsOrdered(before);
      DequeRefinesHistory(cfg, before, e.now);
      StepRefines(cfg, Run(cfg, FRESH, before), History(cfg, before), e);
      RefinesLater(cfg, Run(cfg, FRESH, es).failures, History(cfg, es), e.now, now);
    }
  }

  /** What the pop loop does to any deque, ordered or not: it never loses a recent entry, and it
      leaves exactly the recent ones if and only if no stale entry stands behind a recent one. */
  lemma {:induction false} PopStaleExactIff(q: seq<real>, cutoff: real)
    ensures |PopStale(q, cutoff)| >= |Recent(q, cutoff)|
    ensures PopStale(q, cutoff) == Recent(q, cutoff)
      <==> forall i, j :: 0 <= i < j < |q| && q[i] >= cutoff ==> q[j] >= cutoff
    decreases |q|
  {
    RecentLength(q, cutoff);
    if q == [] {
    } else if q[0] < cutoff {
      PopStaleExactIff(q[1..], cutoff);
      RecentCons(q, cutoff);
      assert forall i :: 1 <= i < |q| ==> q[i] == q[1..][i - 1];
    } else if forall j :: 0 < j < |q| ==> q[j] >= cutoff {
      RecentOfOrdered(q, 0, cutoff);
    } else {
      var j :| 0 < j < |q| && q[j] < cutoff;
      assert q[0] >= cutoff;
    }
  }

  lemma {:induction false} RecentLength(q: seq<real>, cutoff: real)
    ensures |Recent(q, cutoff)| <= |q|
    ensures forall j :: 0 <= j < |q| && q[j] < cutoff ==> |Recent(q, cutoff)| < |q|
    decreases |q|
  {
    if q != [] {
      RecentLength(Front(q), cutoff);
      assert forall j :: 0 <= j < |q| - 1 ==> q[j] == Front(q)[j];
    }
  }

  lemma {:induction false} RecentCons(q: seq<real>, cutoff: real)
    requires q != []
    ensures Recent(q, cutoff) == (if q[0] >= cutoff then [q[0]] else []) + Recent(q[1..], cutoff)
    decreases |q|
  {
    if |q| > 1 {
      RecentCons(Front(q), cutoff);
      assert Front(q)[1..] == Front(q[1..]) && Last(q[1..]) == Last(q);
    }
  }

  // ---------- Readings in any order ----------

  /** The deque after failures read at `h`, one after the other from an empty deque. */
  function DequeOf(h: seq<real>, window: real): seq<real> {
    if h == [] then [] else PopStale(DequeOf(Front(h), window), Last(h) - window) + [Last(h)]
  }

  /** Whatever the readings, a run's deque depends only on the failures since the last clear. */
  lemma {:induction false} RunDeque(cfg: Config, es: seq<Event>)
    ensures Run(cfg, FRESH, es).failures == DequeOf(History(cfg, es), cfg.window)
    decreases |es|
  {
    if es != [] {
      RunDeque(cfg, Front(es));
      var h, e := History(cfg, Front(es)), Last(es);
      if e.Failure? && !Run(cfg, FRESH, Front(es)).state.HalfOpen? {
        AppendParts(h, e.now);
      }
    }
  }

  /** Failure `k` finds the deque wrong because of `i` before `j`: either `j` is stale but stands
      behind the recent `i`, or `i` is recent but `j` made it look stale. */
  predicate Misleads(h: seq<real>, window: real, i: nat, j: nat, k: nat)
    requires i < j < k < |h|
  {
    h[j] < h[k] - window <= h[i] || h[k] - window <= h[i] < h[j] - window
  }

  /** No failure misleads another one at `k`. */
  predicate SafeAt(h: seq<real>, window: real, k: nat)
    requires k < |h|
  {
    forall i, j :: 0 <= i < j < k ==> !Misleads(h, window, i, j, k)
  }

  predicate ReadingsSafe(h: seq<real>, window: real) {
    forall k :: 0 <= k < |h| ==> SafeAt(h, window, k)
  }

  /** The deque is the recent part of the history, cut at one place. */
  predicate CutsAt(q: seq<real>, h: seq<real>, cutoff: real, p: nat) {
    && p <= |h| && q == h[p..]
    && (forall i :: 0 <= i < p ==> h[i] < cutoff)
    && (forall i :: p <= i < |h| ==> h[i] >= cutoff)
  }

  /** Where the pop loop stops in a suffix of the history. */
  lemma {:induction false} PopStops(h: seq<real>, p: nat, cutoff: real) returns (stop: nat)
    requires p <= |h|
    ensures p <= stop <= |h| && PopStale(h[p..], cutoff) == h[stop..]
    ensures forall i :: p <= i < stop ==> h[i] < cutoff
    ensures stop < |h| ==> h[stop] >= cutoff
    decreases |h| - p
  {
    stop := p;
    if p < |h| && h[p] < cutoff {
      assert h[p..][1..] == h[p + 1..];
      stop := PopStops(h, p + 1, cutoff);
    }
  }

  lemma {:induction false} RecentConcat(a: seq<real>, b: seq<real>, cutoff: real)
    ensures Recent(a + b, cutoff) == Recent(a, cutoff) + Recent(b, cutoff)
    decreases |b|
  {
    if b == [] {
      assert a + b == a;
    } else {
      var front, last := Front(b), Last(b);
      assert Front(a + b) == a + front && Last(a + b) == last;
      RecentConcat(a, front, cutoff);
      var ra, rb := Recent(a, cutoff), Recent(front, cutoff);
      assert ra + (rb + [last]) == ra + rb + [last];
    }
  }

  lemma {:induction false} RecentSome(h: seq<real>, i: nat, cutoff: real)
    requires i < |h| && h[i] >= cutoff
    ensures Recent(h, cutoff) != []
    decreases |h|
  {
    if i < |h| - 1 {
      RecentSome(Front(h), i, cutoff);
    }
  }

  /** When the loop stops at `stop`, a recent entry before it is missing from the deque. */
  lemma RecentLost(h: seq<real>, stop: nat, i: nat, cutoff: real)
    requires i < stop <= |h| && h[i] >= cutoff && forall j :: stop <= j < |h| ==> h[j] >= cutoff
    ensures |h[stop..]| < |Recent(h, cutoff)|
  {
    assert h == h[..stop] + h[stop..];
    RecentConcat(h[..stop], h[stop..], cutoff);
    RecentSome(h[..stop], i, cutoff);
    RecentOfOrdered(h[stop..], 0, cutoff);
  }

  /** And a stale entry after it is kept in the deque. */
  lemma StaleKept(h: seq<real>, stop: nat, j: nat, cutoff: real)
    requires stop <= j < |h| && h[j] < cutoff && forall i :: 0 <= i < stop ==> h[i] < cutoff
    ensures |h[stop..]| > |Recent(h, cutoff)|
  {
    assert h == h[..stop] + h[stop..];
    RecentConcat(h[..stop], h[stop..], cutoff);
    RecentOfOrdered(h[..stop], stop, cutoff);
    RecentLength(h[stop..], cutoff);
    assert h[stop..][j - stop] == h[j];
  }

  /** One more failure, read at `x`, after failures that did not mislead each other. */
  lemma CutStaysIffSafe(h: seq<real>, window: real, p: nat, x: real) returns (stop: nat)
    requires window > 0.0 && h != [] && ReadingsSafe(h, window)
    requires p <= |h| && CutsAt(h[p..], h, Last(h) - window, p)
    ensures stop <= |h| && PopStale(h[p..], x - window) == h[stop..]
    ensures SafeAt(h + [x], window, |h|) ==> CutsAt(h[stop..], h, x - window, stop)
    ensures SafeAt(h + [x], window, |h|) <==> |h[stop..]| == |Recent(h, x - window)|
  {
    stop := PopStops(h, p, x - window);
    if SafeAt(h + [x], window, |h|) {
      SafeMeansCut(h, window, p, stop, x);
      RecentOfOrdered(h, stop, x - window);
    } else {
      var i, j :| 0 <= i < j < |h| && Misleads(h + [x], window, i, j, |h|);
      MisleadsMeansNoCut(h, window, p, stop, x, i, j);
    }
  }

  lemma SafeMeansCut(h: seq<real>, window: real, p: nat, stop: nat, x: real)
    requires window > 0.0 && h != []
    requires p <= stop <= |h| && CutsAt(h[p..], h, Last(h) - window, p)
    requires forall i :: p <= i < stop ==> h[i] < x - window
    requires stop < |h| ==> h[stop] >= x - window
    requires SafeAt(h + [x], window, |h|)
    ensures CutsAt(h[stop..], h, x - window, stop)
  {
    var all, n := h + [x], |h|;
    forall i | 0 <= i < p ensures h[i] < x - window {
      assert i < n - 1 && !Misleads(all, window, i, n - 1, n);
    }
    forall i | stop < i < n ensures h[i] >= x - window {
      assert !Misleads(all, window, stop, i, n);
    }
  }

  lemma MisleadsMeansNoCut(h: seq<real>, window: real, p: nat, stop: nat, x: real, i: nat, j: nat)
    requires window > 0.0 && h != [] && ReadingsSafe(h, window)
    requires p <= stop <= |h| && CutsAt(h[p..], h, Last(h) - window, p)
    requires forall k :: p <= k < stop ==> h[k] < x - window
    requires stop < |h| ==> h[stop] >= x - window
    requires i < j < |h| && Misleads(h + [x], window, i, j, |h|)
    ensures |h[stop..]| != |Recent(h, x - window)|
  {
    var n, cutoff := |h|, x - window;
    assert h[i] >= cutoff;
    // Kept entries that make `i` look stale would have misled the last failure already.
    assert i >= p ==> h[j] < cutoff by {
      assert SafeAt(h, window, n - 1);
      assert j < n - 1 ==> !Misleads(h, window, i, j, n - 1);
    }
    if i < p {
      RecentLost(h, stop, i, cutoff);
    } else {
      assert h[n - 1] - window <= h[j] < cutoff;
      StaleKept(h, stop, j, cutoff);
    }
  }

  /** At every failure so far, the deque held the recent failures and nothing else. */
  ghost predicate DequeExact(h: seq<real>, window: real) {
    h == [] || (DequeExact(Front(h), window) && DequeOf(h, window) == Recent(h, Last(h) - window))
  }

  /** At every failure so far, the number compared with the threshold was right. */
  ghost predicate CountExact(h: seq<real>, window: real) {
    h == [] || (CountExact(Front(h), window) && |DequeOf(h, window)| == |Recent(h, Last(h) - window)|)
  }

  lemma SafePrefix(h: seq<real>, x: real, window: real)
    ensures ReadingsSafe(h + [x], window) <==> ReadingsSafe(h, window) && SafeAt(h + [x], window, |h|)
  {
    var all := h + [x];
    forall k | 0 <= k < |h| ensures SafeAt(all, window, k) <==> SafeAt(h, window, k) {
      SameMisleads(h, all, window, k);
    }
  }

  lemma SameMisleads(h: seq<real>, all: seq<real>, window: real, k: nat)
    requires k < |h| <= |all| && h == all[..|h|]
    ensures SafeAt(all, window, k) <==> SafeAt(h, window, k)
  {
    assert forall i :: 0 <= i < |h| ==> all[i] == h[i];
    if SafeAt(all, window, k) {
      forall i, j | 0 <= i < j < k ensures !Misleads(h, window, i, j, k) {
        assert !Misleads(all, window, i, j, k);
      }
    }
    if SafeAt(h, window, k) {
      forall i, j | 0 <= i < j < k ensures !Misleads(all, window, i, j, k) {
        assert !Misleads(h, window, i, j, k);
      }
    }
  }

  /** While no failure misleads another, the deque before a failure at `x` is cut at one place. */
  lemma {:induction false} SafeDeque(h: seq<real>, window: real) returns (p: nat)
    requires window > 0.0 && h != [] && ReadingsSafe(h, window)
    ensures p <= |h| && DequeOf(h, window) == h[p..] && CutsAt(h[p..], h, Last(h) - window, p)
    decreases |h|
  {
    var front, x := Front(h), Last(h);
    assert h == front + [x];
    if front == [] {
      p := 0;
    } else {
      SafePrefix(front, x, window);
      var before := SafeDeque(front, window);
      p := CutStaysIffSafe(front, window, before, x);
      assert h[p..] == front[p..] + [x];
    }
  }

  lemma ExactAtIffSafe(h: seq<real>, window: real, x: real)
    requires window > 0.0 && ReadingsSafe(h, window)
    ensures SafeAt(h + [x], window, |h|) <==> DequeOf(h + [x], window) == Recent(h + [x], x - window)
    ensures SafeAt(h + [x], window, |h|) <==> |DequeOf(h + [x], window)| == |Recent(h + [x], x - window)|
  {
    ExactBeforeAppend(h, window, x);
    var popped, recent := PopStale(DequeOf(h, window), x - window), Recent(h, x - window);
    AppendParts(h, x);
    assert DequeOf(h + [x], window) == popped + [x] && Recent(h + [x], x - window) == recent + [x];
    if popped + [x] == recent + [x] {
      assert |popped| == |recent|;
    }
  }

  lemma ExactBeforeAppend(h: seq<real>, window: real, x: real)
    requires window > 0.0 && ReadingsSafe(h, window)
    ensures SafeAt(h + [x], window, |h|) ==> PopStale(DequeOf(h, window), x - window) == Recent(h, x - window)
    ensures SafeAt(h + [x], window, |h|) <==>
      |PopStale(DequeOf(h, window), x - window)| == |Recent(h, x - window)|
  {
    if h != [] {
      var p := SafeDeque(h, window);
      var stop := CutStaysIffSafe(h, window, p, x);
      if SafeAt(h + [x], window, |h|) {
        RecentOfOrdered(h, stop, x - window);
      }
    }
  }

  /** The deque, and the count it gives, are right at every failure if and only if no two failures
      mislead a later one. The readings may come in any order. */
  lemma {:induction false} DequeIsExactIff(h: seq<real>, window: real)
    requires window > 0.0
    ensures DequeExact(h, window) <==> ReadingsSafe(h, window)
    ensures CountExact(h, window) <==> ReadingsSafe(h, window)
    decreases |h|
  {
    if h != [] {
      var front, x := Front(h), Last(h);
      assert h == front + [x];
      DequeIsExactIff(front, window);
      SafePrefix(front, x, window);
      if ReadingsSafe(front, window) {
        ExactAtIffSafe(front, window, x);
      }
    }
  }

  /** If the last event was a failure, the deque holds as many entries as the history has recent ones. */
  ghost predicate CountAgrees(cfg: Config, c: Circuit, h: seq<real>, e: Event) {
    e.Failure? ==> |c.failures| == |Recent(h, e.now - cfg.window)|
  }

  /** After a run that ends in a failure, the breaker counts exactly the failures of the window. */
  ghost predicate CountsRight(cfg: Config, es: seq<Event>)
    requires es != []
  {
    CountAgrees(cfg, Run(cfg, FRESH, es), History(cfg, es), Last(es))
  }

  lemma OneFailureIsExact(cfg: Config, c: Circuit, h: seq<real>, now: real)
    requires cfg.Valid() && c.failures == DequeOf(h, cfg.window) && !c.state.HalfOpen?
    requires ReadingsSafe(h, cfg.window)
    ensures |Failed(cfg, c, now).failures| == |Recent(h + [now], now - cfg.window)| <==>
      ReadingsSafe(h + [now], cfg.window)
  {
    ExactAtIffSafe(h, cfg.window, now);
    SafePrefix(h, now, cfg.window);
    FailedDeque(cfg, c, h, now);
  }

  lemma StepCountsRight(cfg: Config, c: Circuit, h: seq<real>, e: Event)
    requires cfg.Valid() && c.failures == DequeOf(h, cfg.window) && ReadingsSafe(h, cfg.window)
    ensures CountAgrees(cfg, Step(cfg, c, e), HistoryStep(c, h, e), e) <==>
      ReadingsSafe(HistoryStep(c, h, e), cfg.window)
  {
    if e.Failure? && !c.state.HalfOpen? {
      OneFailureIsExact(cfg, c, h, e.now);
    }
  }

  lemma LastEvent(cfg: Config, es: seq<Event>)
    requires es != []
    ensures Run(cfg, FRESH, es) == Step(cfg, Run(cfg, FRESH, Front(es)), Last(es))
    ensures History(cfg, es) == HistoryStep(Run(cfg, FRESH, Front(es)), History(cfg, Front(es)), Last(es))
  {
  }

  lemma CountsRightIsExact(cfg: Config, es: seq<Event>)
    requires cfg.Valid() && es != [] && ReadingsSafe(History(cfg, Front(es)), cfg.window)
    ensures CountsRight(cfg, es) <==> ReadingsSafe(History(cfg, es), cfg.window)
  {
    RunDeque(cfg, Front(es));
    LastEvent(cfg, es);
    StepCountsRight(cfg, Run(cfg, FRESH, Front(es)), History(cfg, Front(es)), Last(es));
  }

  /** The breaker counted right at every failure of the run. */
  ghost predicate AlwaysCountsRight(cfg: Config, es: seq<Event>) {
    es == [] || (AlwaysCountsRight(cfg, Front(es)) && CountsRight(cfg, es))
  }

  /** In the history of every moment of the run, no two failures mislead a later one. */
  ghost predicate AlwaysSafe(cfg: Config, es: seq<Event>) {
    ReadingsSafe(History(cfg, es), cfg.window) && (es == [] || AlwaysSafe(cfg, Front(es)))
  }

  /** In any run, with clock readings in any order: the breaker counts right at every failure if and
      only if no two failures of one window history ever mislead a later one. */
  lemma {:induction false} RunCountsRightIff(cfg: Config, es: seq<Event>)
    requires cfg.Valid()
    ensures AlwaysCountsRight(cfg, es) <==> AlwaysSafe(cfg, es)
    decreases |es|
  {
    if es != [] {
      RunCountsRightIff(cfg, Front(es));
      if AlwaysSafe(cfg, Front(es)) {
        CountsRightIsExact(cfg, es);
      }
    }
  }

  lemma SafeFailure(cfg: Config, c: Circuit, h: seq<real>, now: real)
    requires cfg.Valid() && c.state.Closed? && c.failures == DequeOf(h, cfg.window)
    requires ReadingsSafe(h + [now], cfg.window)
    ensures Failed(cfg, c, now).failures == Recent(h + [now], now - cfg.window)
    ensures Failed(cfg, c, now).state.Open? <==> |Failed(cfg, c, now).failures| >= cfg.threshold
  {
    SafePrefix(h, now, cfg.window);
    ExactAtIffSafe(h, cfg.window, now);
    FailedDeque(cfg, c, h, now);
  }

  lemma DequeStep(h: seq<real>, window: real, x: real)
    ensures DequeOf(h + [x], window) == PopStale(DequeOf(h, window), x - window) + [x]
  {
    AppendParts(h, x);
  }

  lemma FailedStep(cfg: Config, c: Circuit, now: real)
    requires !c.state.HalfOpen?
    ensures Failed(cfg, c, now).failures == PopStale(c.failures, now - cfg.window) + [now]
    ensures c.state.Closed? ==> (Failed(cfg, c, now).state.Open? <==> |Failed(cfg, c, now).failures| >= cfg.threshold)
  {
  }

  lemma FailedDeque(cfg: Config, c: Circuit, h: seq<real>, now: real)
    requires c.failures == DequeOf(h, cfg.window) && !c.state.HalfOpen?
    ensures Failed(cfg, c, now).failures == DequeOf(h + [now], cfg.window)
    ensures c.state.Closed? ==> (Failed(cfg, c, now).state.Open? <==> |Failed(cfg, c, now).failures| >= cfg.threshold)
  {
    FailedStep(cfg, c, now);
    DequeStep(h, cfg.window, now);
  }

  /** Then, and with readings in any such order, a closed breaker opens exactly on the failure that
      brings the failures of the window, counted in the plain history, up to the threshold. */
  lemma TripsExactlyWhenSafe(cfg: Config, es: seq<Event>, at: real, now: real)
    requires cfg.Valid() && Run(cfg, FRESH, es).state.Closed?
    requires ReadingsSafe(History(cfg, es) + [now], cfg.window)
    ensures var after := Run(cfg, FRESH, es + [Failure(at, now)]);
      && (after.state.Open? <==> |Recent(History(cfg, es) + [now], now - cfg.window)| >= cfg.threshold)
      && after.failures == Recent(History(cfg, es) + [now], now - cfg.window)
  {
    OneMoreEvent(cfg, es, Failure(at, now));
    RunDeque(cfg, es);
    SafeFailure(cfg, Run(cfg, FRESH, es), History(cfg, es), now);
  }

  lemma OrderedIsSafe(h: seq<real>, window: real)
    requires window > 0.0 && NonDecreasing(h)
    ensures ReadingsSafe(h, window)
  {
  }

  lemma {:induction false} OrderedHistory(cfg: Config, es: seq<Event>, now: real)
    requires ReadingsOrdered(es) && (es == [] || Last(es).now <= now)
    ensures NonDecreasing(History(cfg, es) + [now])
    decreases |es|
  {
    if es != [] {
      var last := Last(es).now;
      assert forall i :: 0 <= i < |es| ==> es[i].now <= last;
      OrderedHistory(cfg, Front(es), last);
      LaterEnd(History(cfg, Front(es)), last, now);
    }
  }

  lemma LaterEnd(h: seq<real>, last: real, now: real)
    requires NonDecreasing(h + [last]) && last <= now
    ensures NonDecreasing(h + [now]) && NonDecreasing(h + [last] + [now])
  {
    var a, b, c := h + [last], h + [now], h + [last] + [now];
    forall i, j | 0 <= i < j < |b| ensures b[i] <= b[j] {
      assert a[i] <= a[j];
    }
    forall i, j | 0 <= i < j < |c| ensures c[i] <= c[j] {
      assert i < |h| ==> a[i] <= a[|h|];
      assert j <= |h| ==> a[i] <= a[j];
    }
  }

  lemma OrderedBefore(es: seq<Event>, e: Event)
    requires ReadingsOrdered(es + [e])
    ensures ReadingsOrdered(es) && (es != [] ==> Last(es).now <= e.now)
  {
    var all := es + [e];
    assert forall i :: 0 <= i < |es| ==> all[i] == es[i];
    assert all[|es|] == e;
  }

  /** In particular when readings come in lock order. */
  lemma TripsExactlyWhenWindowFills(cfg: Config, es: seq<Event>, at: real, now: real)
    requires cfg.Valid() && ReadingsOrdered(es + [Failure(at, now)])
    requires Run(cfg, FRESH, es).state.Closed?
    ensures var after := Run(cfg, FRESH, es + [Failure(at, now)]);
      && (after.state.Open? <==> |Recent(History(cfg, es) + [now], now - cfg.window)| >= cfg.threshold)
      && after.failures == Recent(History(cfg, es) + [now], now - cfg.window)
  {
    OrderedBefore(es, Failure(at, now));
    OrderedHistory(cfg, es, now);
    OrderedIsSafe(History(cfg, es) + [now], cfg.window);
    TripsExactlyWhenSafe(cfg, es, at, now);
  }

  lemma FailureOn(cfg: Config, es: seq<Event>, c: Circuit, h: seq<real>, f: Event)
    requires Run(cfg, FRESH, es) == c && History(cfg, es) == h && c.state.Closed? && f.Failure?
    ensures Run(cfg, FRESH, es + [f]) == Failed(cfg, c, f.now) && History(cfg, es + [f]) == h + [f.now]
  {
    OneMoreEvent(cfg, es, f);
  }

  lemma EarlyFailure(cfg: Config, before: seq<real>, q: seq<real>, now: real)
    requires |before| <= 1 && cfg.threshold == 3 && q == PopStale(before, now - cfg.window)
    ensures Failed(cfg, Circuit(Closed, before, None, false), now) == Circuit(Closed, q + [now], None, false)
    ensures |q| <= 1
  {
  }

  lemma TwoFailures(cfg: Config, f1: Event, f2: Event, q: seq<real>)
    requires f1.Failure? && f2.Failure? && cfg.threshold == 3
    requires q == PopStale([f1.now], f2.now - cfg.window)
    ensures History(cfg, [f1, f2]) == [f1.now, f2.now]
    ensures Run(cfg, FRESH, [f1, f2]) == Circuit(Closed, q + [f2.now], None, false) && |q| <= 1
  {
    FailureOn(cfg, [], FRESH, [], f1);
    EarlyFailure(cfg, [], [], f1.now);
    assert [] + [f1] == [f1] && [] + [f1.now] == [f1.now];
    FailureOn(cfg, [f1], Circuit(Closed, [f1.now], None, false), [f1.now], f2);
    EarlyFailure(cfg, [f1.now], q, f2.now);
    assert [f1] + [f2] == [f1, f2] && [f1.now] + [f2.now] == [f1.now, f2.now];
  }

  /** Three failures in a row from a fresh breaker. */
  lemma ThreeFailures(cfg: Config, f1: Event, f2: Event, f3: Event, q: seq<real>)
    requires f1.Failure? && f2.Failure? && f3.Failure? && cfg.threshold == 3
    requires q == PopStale([f1.now], f2.now - cfg.window)
    ensures History(cfg, [f1, f2, f3]) == [f1.now, f2.now, f3.now]
    ensures var d := PopStale(q + [f2.now], f3.now - cfg.window) + [f3.now];
      Run(cfg, FRESH, [f1, f2, f3]).state == if |d| >= 3 then Open else Closed
  {
    TwoFailures(cfg, f1, f2, q);
    OneMoreEvent(cfg, [f1, f2], f3);
    assert [f1, f2] + [f3] == [f1, f2, f3];
    assert [f1.now, f2.now] + [f3.now] == [f1.now, f2.now, f3.now];
  }

  /** Readings are taken before the lock, so they can reach the deque out of order. A stale entry
      behind a recent one is counted, and the breaker trips with fewer failures in the window than
      the threshold. */
  lemma OutOfOrderReadingsTripEarly()
    ensures var cfg := Config(3, 1.0, 60.0);
      var es := [Failure(11.0, 11.0), Failure(11.1, 10.0), Failure(11.6, 11.6)];
      && Run(cfg, FRESH, es).state.Open?
      && |Recent(History(cfg, es), 11.6 - cfg.window)| < cfg.threshold
  {
    var cfg := Config(3, 1.0, 60.0);
    assert PopStale([11.0], 9.0) == [11.0];
    assert PopStale([11.0] + [10.0], 10.6) == [11.0] + [10.0];
    ThreeFailures(cfg, Failure(11.0, 11.0), Failure(11.1, 10.0), Failure(11.6, 11.6), [11.0]);
    var h := [11.0, 10.0, 11.6];
    RecentLength(h, 10.6);
    assert h[1] < 10.6 && |h| == 3;
  }

  /** And a later reading can pop an entry that is recent again for the next one: the window holds
      as many failures as the threshold and the breaker stays closed. */
  lemma OutOfOrderReadingsTripLate()
    ensures var cfg := Config(3, 1.0, 60.0);
      var es := [Failure(0.0, 0.0), Failure(1.5, 1.5), Failure(1.6, 0.9)];
      && Run(cfg, FRESH, es).state.Closed?
      && |Recent(History(cfg, es), 0.9 - cfg.window)| >= cfg.threshold
  {
    var cfg := Config(3, 1.0, 60.0);
    assert [0.0][1..] == [] && PopStale([0.0], 0.5) == [];
    assert [] + [1.5] == [1.5] && PopStale([1.5], -0.1) == [1.5];
    ThreeFailures(cfg, Failure(0.0, 0.0), Failure(1.5, 1.5), Failure(1.6, 0.9), []);
    var h := [0.0, 1.5, 0.9];
    RecentOfOrdered(h, 0, -0.1);
  }

  lemma OneMoreEvent(cfg: Config, es: seq<Event>, e: Event)
    ensures Run(cfg, FRESH, es + [e]) == Step(cfg, Run(cfg, FRESH, es), e)
    ensures History(cfg, es + [e]) == HistoryStep(Run(cfg, FRESH, es), History(cfg, es), e)
  {
    AppendParts(es, e);
  }

  // ---------- The dispatch rate while a stage is tripped ----------

  /** Operations take the lock in order, and no reading is ahead of the lock nor more than `skew`
      behind it. With `skew == 0.0` the readings are the lock times. */
  predicate LockOrdered(es: seq<Event>, skew: real) {
    && (forall i, j :: 0 <= i < j < |es| ==> es[i].at <= es[j].at)
    && (forall i :: 0 <= i < |es| ==> es[i].at - skew <= es[i].now <= es[i].at)
  }

  /** The breaker in the middle of an outage that began at `t0`, after `k` grants: it opened, or
      granted its probe, no earlier than `k` cooldowns into the outage. */
  ghost predicate Paced(cfg: Config, c: Circuit, k: nat, t0: real, t: real, skew: real) {
    && !c.state.Closed?
    && (c.probeInFlight <==> c.state.HalfOpen?)
    && c.openedAt.Some? && t0 <= t
    && (c.state.Open? ==> Multiple(k, cfg.cooldown - skew) <= c.openedAt.value + skew - t0)
    && Multiple(k, cfg.cooldown - skew) <= t - t0
  }

  /** The least time between two grants: the cooldown, less the skew if that leaves anything. */
  function Gap(cfg: Config, skew: real): real {
    if skew < cfg.cooldown then cfg.cooldown - skew else 0.0
  }

  lemma {:induction false} NoMultiple(k: nat)
    ensures Multiple(k, 0.0) == 0.0
    decreases k
  {
    if k > 0 {
      NoMultiple(k - 1);
    }
  }

  /** From the moment a stage leaves `Closed` until its next recorded success, the `k` dispatches
      granted by time `t` satisfy Multiple(k, gap) <= t - t0, across every mix of failures,
      cancels and late reports. */
  lemma DispatchRateIsBounded(cfg: Config, c: Circuit, trip: Event, es: seq<Event>, skew: real)
    requires cfg.Valid() && StateInvariant(cfg, c) && c.state.Closed?
    requires !Step(cfg, c, trip).state.Closed?
    requires skew >= 0.0 && LockOrdered([trip] + es, skew)
    requires forall i :: 0 <= i < |es| ==> !es[i].Success?
    ensures Multiple(Grants(cfg, Step(cfg, c, trip), es), Gap(cfg, skew)) <= Last([trip] + es).at - trip.at
  {
    OutageIsPaced(cfg, c, trip, es, skew);
    NoMultiple(Grants(cfg, Step(cfg, c, trip), es));
  }

  lemma {:induction false} OutageIsPaced(cfg: Config, c: Circuit, trip: Event, es: seq<Event>, skew: real)
    requires cfg.Valid() && StateInvariant(cfg, c) && c.state.Closed?
    requires !Step(cfg, c, trip).state.Closed?
    requires skew >= 0.0 && LockOrdered([trip] + es, skew)
    requires forall i :: 0 <= i < |es| ==> !es[i].Success?
    ensures Paced(cfg, Run(cfg, Step(cfg, c, trip), es), Grants(cfg, Step(cfg, c, trip), es),
                  trip.at, Last([trip] + es).at, skew)
    decreases |es|
  {
    var start := Step(cfg, c, trip);
    var all := [trip] + es;
    assert all[0] == trip;
    if es != [] {
      var before, e := Front(es), Last(es);
      assert [trip] + before == Front(all) && Last(all) == e;
      OutageIsPaced(cfg, c, trip, before, skew);
      StepIsPaced(cfg, Run(cfg, start, before), Grants(cfg, start, before), trip.at, Last([trip] + before).at, e, skew);
    }
  }

  lemma StepIsPaced(cfg: Config, c: Circuit, k: nat, t0: real, t: real, e: Event, skew: real)
    requires cfg.Valid() && Paced(cfg, c, k, t0, t, skew)
    requires t <= e.at && e.at - skew <= e.now <= e.at && !e.Success?
    ensures Paced(cfg, Step(cfg, c, e), if e.Dispatch? && Dispatched(cfg, c, e.now).1 then k + 1 else k, t0, e.at, skew)
  {
  }

  /** The time of the last operation, or `t0` when there is none. */
  function EndTime(es: seq<Event>, t0: real): real {
    if es == [] then t0 else Last(es).at
  }

  /** Operations in lock order from `t0` on, read at most `skew` early, no success among them. */
  predicate SuccessFree(es: seq<Event>, t0: real, skew: real) {
    es == [] ||
    (&& SuccessFree(Front(es), t0, skew)
     && EndTime(Front(es), t0) <= Last(es).at
     && Last(es).at - skew <= Last(es).now <= Last(es).at
     && !Last(es).Success?)
  }

  lemma {:induction false} SuccessFreeIsLockOrdered(es: seq<Event>, t0: real, skew: real)
    requires SuccessFree(es, t0, skew)
    ensures LockOrdered(es, skew)
    ensures forall i :: 0 <= i < |es| ==> t0 <= es[i].at <= EndTime(es, t0) && !es[i].Success?
    decreases |es|
  {
    if es != [] {
      SuccessFreeIsLockOrdered(Front(es), t0, skew);
      assert forall i :: 0 <= i < |es| - 1 ==> es[i] == Front(es)[i];
    }
  }

  /** An outage with exactly `n` grants, open again at time `t` by a reading that is `skew` early. */
  ghost predicate OutageWith(cfg: Config, c: Circuit, es: seq<Event>, n: nat, t0: real, t: real, skew: real) {
    && SuccessFree(es, t0, skew) && EndTime(es, t0) == t
    && Grants(cfg, c, es) == n
    && Run(cfg, c, es).state.Open? && Run(cfg, c, es).openedAt == Some(t - skew)
  }

  lemma OneMoreStep(cfg: Config, c: Circuit, es: seq<Event>, e: Event)
    ensures Run(cfg, c, es + [e]) == Step(cfg, Run(cfg, c, es), e)
    ensures Grants(cfg, c, es + [e]) ==
      Grants(cfg, c, es) + if e.Dispatch? && Dispatched(cfg, Run(cfg, c, es), e.now).1 then 1 else 0
  {
    AppendParts(es, e);
  }

  lemma OneMoreFree(es: seq<Event>, t0: real, skew: real, e: Event)
    requires SuccessFree(es, t0, skew) && EndTime(es, t0) <= e.at && e.at - skew <= e.now <= e.at && !e.Success?
    ensures SuccessFree(es + [e], t0, skew) && EndTime(es + [e], t0) == e.at
  {
    AppendParts(es, e);
  }

  /** An open breaker grants a probe as soon as the cooldown, less the skew, is over; cancelled, it
      is open again from then on. */
  lemma ProbeAndCancel(cfg: Config, c: Circuit, x: real, t: real, skew: real)
    requires cfg.Valid() && skew >= 0.0 && c.state.Open? && c.openedAt == Some(x - skew) && t == x + Gap(cfg, skew)
    ensures var probed := Step(cfg, c, Dispatch(t, t));
      && Dispatched(cfg, c, t).1
      && Step(cfg, probed, Cancel(t, t - skew)).state.Open?
      && Step(cfg, probed, Cancel(t, t - skew)).openedAt == Some(t - skew)
  {
    assert t - (x - skew) >= cfg.cooldown;
  }

  lemma TwoMoreFree(es: seq<Event>, t0: real, skew: real, e: Event, f: Event)
    requires SuccessFree(es, t0, skew) && EndTime(es, t0) <= e.at <= f.at && !e.Success? && !f.Success?
    requires e.at - skew <= e.now <= e.at && f.at - skew <= f.now <= f.at
    ensures SuccessFree(es + [e] + [f], t0, skew) && EndTime(es + [e] + [f], t0) == f.at
  {
    OneMoreFree(es, t0, skew, e);
    OneMoreFree(es + [e], t0, skew, f);
  }

  lemma TwoMoreSteps(cfg: Config, c: Circuit, es: seq<Event>, e: Event, f: Event)
    requires e.Dispatch? && f.Cancel?
    ensures Run(cfg, c, es + [e] + [f]) == Step(cfg, Step(cfg, Run(cfg, c, es), e), f)
    ensures Grants(cfg, c, es + [e] + [f]) ==
      Grants(cfg, c, es) + if Dispatched(cfg, Run(cfg, c, es), e.now).1 then 1 else 0
  {
    OneMoreStep(cfg, c, es, e);
    OneMoreStep(cfg, c, es + [e], f);
  }

  lemma OneMoreProbe(cfg: Config, c: Circuit, es: seq<Event>, n: nat, t0: real, x: real, skew: real)
    returns (more: seq<Event>)
    requires cfg.Valid() && skew >= 0.0 && OutageWith(cfg, c, es, n, t0, x, skew)
    ensures OutageWith(cfg, c, more, n + 1, t0, x + Gap(cfg, skew), skew)
  {
    var t := x + Gap(cfg, skew);
    ProbeAndCancel(cfg, Run(cfg, c, es), x, t, skew);
    TwoMoreSteps(cfg, c, es, Dispatch(t, t), Cancel(t, t - skew));
    TwoMoreFree(es, t0, skew, Dispatch(t, t), Cancel(t, t - skew));
    more := es + [Dispatch(t, t)] + [Cancel(t, t - skew)];
  }

  lemma MultipleStep(n: nat, gap: real)
    requires n > 0
    ensures Multiple(n, gap) == Multiple(n - 1, gap) + gap
  {
  }

  lemma {:induction false} Probes(cfg: Config, c: Circuit, t0: real, n: nat, skew: real) returns (es: seq<Event>)
    requires cfg.Valid() && skew >= 0.0 && c.state.Open? && c.openedAt == Some(t0 - skew)
    ensures OutageWith(cfg, c, es, n, t0, t0 + Multiple(n, Gap(cfg, skew)), skew)
    decreases n
  {
    if n == 0 {
      es := [];
      assert SuccessFree(es, t0, skew);
    } else {
      var before := Probes(cfg, c, t0, n - 1, skew);
      es := OneMoreProbe(cfg, c, before, n - 1, t0, t0 + Multiple(n - 1, Gap(cfg, skew)), skew);
      MultipleStep(n, Gap(cfg, skew));
    }
  }

  /** The bound is attained for every skew: after a trip read `skew` early, for every `n` some
      outage grants `n` probes in exactly `n` gaps. */
  lemma DispatchRateIsTight(cfg: Config, c: Circuit, t0: real, n: nat, skew: real) returns (es: seq<Event>)
    requires cfg.Valid() && skew >= 0.0 && c.state.Closed?
    requires !Step(cfg, c, Failure(t0, t0 - skew)).state.Closed?
    ensures LockOrdered([Failure(t0, t0 - skew)] + es, skew) && forall i :: 0 <= i < |es| ==> !es[i].Success?
    ensures Grants(cfg, Step(cfg, c, Failure(t0, t0 - skew)), es) == n
    ensures Last([Failure(t0, t0 - skew)] + es).at - t0 == Multiple(n, Gap(cfg, skew))
  {
    var trip := Failure(t0, t0 - skew);
    es := Probes(cfg, Step(cfg, c, trip), t0, n, skew);
    SuccessFreeIsLockOrdered(es, t0, skew);
    var all := [trip] + es;
    assert forall i :: 0 < i < |all| ==> all[i] == es[i - 1];
  }
}
