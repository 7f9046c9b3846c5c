// One scheduler process over its life: what becomes of every slot it claims, and of every
// briefing whose email it must queue. The services it calls may answer in any way, fail at any
// call, and change between calls.
module BriefingScheduler {
  import opened Common
  import BriefingClaims

  type User = BriefingClaims.User

  datatype BriefingId = BriefingId(id: string)

  /** What a generation attempt can come to. */
  datatype Outcome = Raised | Deferred(deadline: int) | Empty | Generated(briefing: BriefingId)

  /** A claimed slot parked by the readiness gate. */
  datatype PendingBriefing = PendingBriefing(cutoff: int, deadline: int)

  datatype DueRow = DueRow(user: User, slot: int, emailEnabled: bool)

  // ---------- The fate of claimed slots ----------

  datatype Fate =
    | Parked(deadline: int)
    | Made(briefing: BriefingId)
    | FoundEmpty
    | GenerationFailed
    | Abandoned(deadline: int, at: int)

  /** A claimed slot, in the order of claiming. */
  datatype Slot = Slot(user: User, cutoff: int, fate: Fate)

  /** The fate of a slot at its first generation attempt. */
  function FirstFate(outcome: Outcome): Fate {
    match outcome
    case Raised => GenerationFailed
    case Deferred(deadline) => Parked(deadline)
    case Empty => FoundEmpty
    case Generated(b) => Made(b)
  }

  /** The fate of a parked slot after a retry: at its deadline it is decided one way or another. */
  function RetryFate(deadline: int, outcome: Outcome, now: int): Fate {
    match outcome
    case Raised => if now >= deadline then Abandoned(deadline, now) else Parked(deadline)
    case Deferred(_) => if now >= deadline then Abandoned(deadline, now) else Parked(deadline)
    case Empty => FoundEmpty
    case Generated(b) => Made(b)
  }

  // ---------- What the services record ----------

  /** A generation call and what it came to. */
  datatype Call = Call(user: User, now: int, cutoff: int, deadline: Option<int>, outcome: Outcome)

  /** A query for due rows and its answer. */
  datatype Scan = Scan(now: int, limit: nat, due: seq<DueRow>)

  /** A claim attempt and its answer. */
  datatype Try = Try(user: User, slot: int, won: bool)

  /** A reading of the current email switch. */
  datatype SwitchRead = SwitchRead(user: User, enabled: bool)

  /** A request for a delivery row. */
  datatype Ask = Ask(id: BriefingId, ok: bool)

  /** The latest nominal occurrence of a row's cadence at or before an instant. */
  type RunRule = f: (DueRow, int) -> int | forall row, at :: f(row, at) <= at witness (_, at) => at

  /** What a pass makes of one due row: passed over, its claim lost, or won and generated. */
  datatype Turn = Skipped(row: DueRow) | Lost(row: DueRow) | Won(row: DueRow, outcome: Outcome)

  function TryOf(turn: Turn): seq<Try> {
    match turn
    case Skipped(_) => []
    case Lost(row) => [Try(row.user, row.slot, false)]
    case Won(row, _) => [Try(row.user, row.slot, true)]
  }

  function CallOf(turn: Turn, now: int, latest: RunRule): seq<Call> {
    if turn.Won? then [Call(turn.row.user, now, latest(turn.row, now), None, turn.outcome)] else []
  }

  function SlotOf(turn: Turn, now: int, latest: RunRule): seq<Slot> {
    if turn.Won? then [Slot(turn.row.user, latest(turn.row, now), FirstFate(turn.outcome))] else []
  }

  function OwedBy(turn: Turn): set<BriefingId> {
    if turn.Won? && turn.outcome.Generated? && turn.row.emailEnabled then {turn.outcome.briefing} else {}
  }

  function TriesOf(turns: seq<Turn>): seq<Try> {
    if turns == [] then [] else TriesOf(Front(turns)) + TryOf(Last(turns))
  }

  function CallsOf(turns: seq<Turn>, now: int, latest: RunRule): seq<Call> {
    if turns == [] then [] else CallsOf(Front(turns), now, latest) + CallOf(Last(turns), now, latest)
  }

  function SlotsOf(turns: seq<Turn>, now: int, latest: RunRule): seq<Slot> {
    if turns == [] then [] else SlotsOf(Front(turns), now, latest) + SlotOf(Last(turns), now, latest)
  }

  function OwedByAll(turns: seq<Turn>): set<BriefingId> {
    if turns == [] then {} else OwedByAll(Front(turns)) + OwedBy(Last(turns))
  }

  /** The outcome of each user's call. */
  function OutcomesOf(calls: seq<Call>): map<User, Outcome> {
    if calls == [] then map[] else OutcomesOf(Front(calls))[Last(calls).user := Last(calls).outcome]
  }

  function Users(slots: seq<Slot>): seq<User> {
    if slots == [] then [] else Users(Front(slots)) + [Last(slots).user]
  }

  /** The users whose claims were won, in order. */
  function Winners(tries: seq<Try>): seq<User> {
    if tries == [] then [] else Winners(Front(tries)) + if Last(tries).won then [Last(tries).user] else []
  }

  /** The slots after the retries: a parked one takes the fate of its user's outcome. */
  function AfterRetries(slots: seq<Slot>, outcomes: map<User, Outcome>, now: int): (after: seq<Slot>)
    ensures |after| == |slots|
  {
    if slots == [] then []
    else AfterRetries(Front(slots), outcomes, now) + [RetriedSlot(Last(slots), outcomes, now)]
  }

  function RetriedSlot(slot: Slot, outcomes: map<User, Outcome>, now: int): Slot {
    if slot.fate.Parked? && slot.user in outcomes
    then slot.(fate := RetryFate(slot.fate.deadline, outcomes[slot.user], now))
    else slot
  }

  /** Each call is the one retry of its user's entry. */
  ghost predicate AreRetries(calls: seq<Call>, pending: map<User, PendingBriefing>, now: int) {
    && (forall i :: 0 <= i < |calls| ==>
          && calls[i].user in pending && calls[i].now == now
          && calls[i].cutoff == pending[calls[i].user].cutoff
          && calls[i].deadline == Some(pending[calls[i].user].deadline))
    && forall i, j :: 0 <= i < j < |calls| ==> calls[i].user != calls[j].user
  }

  // ---------- Slots and pending entries ----------

  /** The parked slots are exactly the pending entries, one slot per user, with the cutoff and the
      deadline the slot was parked with. */
  ghost predicate Matches(slots: seq<Slot>, pending: map<User, PendingBriefing>) {
    && (forall k :: 0 <= k < |slots| && slots[k].fate.Parked? ==>
          && slots[k].user in pending
          && pending[slots[k].user] == PendingBriefing(slots[k].cutoff, slots[k].fate.deadline))
    && OneParkedEach(slots)
    && (forall u :: u in pending ==> exists k :: 0 <= k < |slots| && slots[k].fate.Parked? && slots[k].user == u)
  }

  /** How a parked slot may be decided: abandoned only once its own deadline has come. */
  predicate Settles(parked: Fate, fate: Fate) {
    && parked.Parked?
    && match fate
       case Made(_) => true
       case FoundEmpty => true
       case Abandoned(deadline, at) => deadline == parked.deadline <= at
       case Parked(_) => false
       case GenerationFailed => false
  }

  /** Claimed slots are never forgotten, a decided slot stays as decided, and a parked one is
      either untouched or settled. */
  ghost predicate Extends(a: seq<Slot>, b: seq<Slot>) {
    && |a| <= |b|
    && forall k :: 0 <= k < |a| ==>
      && b[k].user == a[k].user && b[k].cutoff == a[k].cutoff
      && (b[k].fate == a[k].fate || Settles(a[k].fate, b[k].fate))
  }

  /** No slot of `a` that was parked with its deadline at or before `now` is still parked in `b`. */
  ghost predicate ExpiredAreDecided(a: seq<Slot>, b: seq<Slot>, now: int) {
    forall k :: 0 <= k < |a| && k < |b| && a[k].fate.Parked? && a[k].fate.deadline <= now ==> !b[k].fate.Parked?
  }

  function Count(slots: seq<Slot>, which: Fate -> bool): nat {
    if slots == [] then 0 else Count(Front(slots), which) + if which(Last(slots).fate) then 1 else 0
  }

  function MadeCount(slots: seq<Slot>): nat {
    if slots == [] then 0 else MadeCount(Front(slots)) + if Last(slots).fate.Made? then 1 else 0
  }

  lemma {:induction false} MadeCountUpdate(slots: seq<Slot>, k: nat, s: Slot)
    requires k < |slots|
    ensures MadeCount(slots[k := s]) ==
      MadeCount(slots) - (if slots[k].fate.Made? then 1 else 0) + (if s.fate.Made? then 1 else 0)
    decreases |slots|
  {
    if k < |slots| - 1 {
      MadeCountUpdate(Front(slots), k, s);
      assert Front(slots[k := s]) == Front(slots)[k := s];
    } else {
      assert Front(slots[k := s]) == Front(slots);
    }
  }

  lemma MadeCountAppend(slots: seq<Slot>, s: Slot)
    ensures MadeCount(slots + [s]) == MadeCount(slots) + (if s.fate.Made? then 1 else 0)
  {
    assert Front(slots + [s]) == slots;
  }

  ghost function ParkedUsers(slots: seq<Slot>): set<User> {
    set k | 0 <= k < |slots| && slots[k].fate.Parked? :: slots[k].user
  }

  ghost predicate OneParkedEach(slots: seq<Slot>) {
    forall j, k :: 0 <= j < k < |slots| && slots[j].fate.Parked? && slots[k].fate.Parked? ==>
      slots[j].user != slots[k].user
  }

  lemma ParkedUsersStep(slots: seq<Slot>)
    requires slots != [] && OneParkedEach(slots)
    ensures OneParkedEach(Front(slots))
    ensures ParkedUsers(slots) ==
      ParkedUsers(Front(slots)) + if Last(slots).fate.Parked? then {Last(slots).user} else {}
    ensures Last(slots).fate.Parked? ==> Last(slots).user !in ParkedUsers(Front(slots))
  {
    var front := Front(slots);
    forall u | u in ParkedUsers(slots)
      ensures u in ParkedUsers(front) || (Last(slots).fate.Parked? && u == Last(slots).user)
    {
      var k :| 0 <= k < |slots| && slots[k].fate.Parked? && slots[k].user == u;
      assert k < |front| ==> front[k] == slots[k];
    }
    forall u | u in ParkedUsers(front) ensures u in ParkedUsers(slots) {
      var k :| 0 <= k < |front| && front[k].fate.Parked? && front[k].user == u;
      assert slots[k] == front[k];
    }
  }

  lemma {:induction false} ParkedUsersCount(slots: seq<Slot>)
    requires OneParkedEach(slots)
    ensures |ParkedUsers(slots)| == Count(slots, (f: Fate) => f.Parked?)
    decreases |slots|
  {
    if slots != [] {
      ParkedUsersStep(slots);
      ParkedUsersCount(Front(slots));
    }
  }

  lemma {:induction false} FatesPartition(slots: seq<Slot>)
    ensures |slots| == Count(slots, (f: Fate) => f.Made?) + Count(slots, (f: Fate) => f.FoundEmpty?)
      + Count(slots, (f: Fate) => f.GenerationFailed?) + Count(slots, (f: Fate) => f.Abandoned?)
      + Count(slots, (f: Fate) => f.Parked?)
    decreases |slots|
  {
    if slots != [] {
      FatesPartition(Front(slots));
    }
  }

  /** Slots are conserved: every claimed slot was generated, found empty, failed or abandoned, or is
      currently parked. */
  lemma SlotsAreConserved(slots: seq<Slot>, pending: map<User, PendingBriefing>)
    requires Matches(slots, pending)
    ensures |slots| == Count(slots, (f: Fate) => f.Made?) + Count(slots, (f: Fate) => f.FoundEmpty?)
      + Count(slots, (f: Fate) => f.GenerationFailed?) + Count(slots, (f: Fate) => f.Abandoned?)
      + |pending|
  {
    FatesPartition(slots);
    ParkedUsersCount(slots);
    assert ParkedUsers(slots) == pending.Keys;
    assert |pending.Keys| == |pending|;
  }

  lemma ParkedSlot(slots: seq<Slot>, pending: map<User, PendingBriefing>, user: User) returns (k: nat)
    requires Matches(slots, pending) && user in pending
    ensures k < |slots| && slots[k].user == user
    ensures slots[k].fate == Parked(pending[user].deadline) && slots[k].cutoff == pending[user].cutoff
  {
    k :| k < |slots| && slots[k].fate.Parked? && slots[k].user == user;
  }

  lemma ClaimKeepsMatch(slots: seq<Slot>, pending: map<User, PendingBriefing>, s: Slot)
    requires Matches(slots, pending) && s.user !in pending
    ensures Matches(slots + [s],
                    if s.fate.Parked? then pending[s.user := PendingBriefing(s.cutoff, s.fate.deadline)] else pending)
    ensures Extends(slots, slots + [s])
  {
    var after := if s.fate.Parked? then pending[s.user := PendingBriefing(s.cutoff, s.fate.deadline)] else pending;
    var all := slots + [s];
    forall u | u in after ensures exists k :: 0 <= k < |all| && all[k].fate.Parked? && all[k].user == u {
      if u in pending {
        var k := ParkedSlot(slots, pending, u);
        assert all[k] == slots[k];
      } else {
        assert all[|slots|] == s;
      }
    }
  }

  lemma DecisionKeepsMatch(slots: seq<Slot>, pending: map<User, PendingBriefing>, k: nat, fate: Fate)
    requires Matches(slots, pending) && k < |slots| && Settles(slots[k].fate, fate)
    ensures Matches(slots[k := slots[k].(fate := fate)], pending - {slots[k].user})
    ensures Extends(slots, slots[k := slots[k].(fate := fate)])
  {
    var after := pending - {slots[k].user};
    var all := slots[k := slots[k].(fate := fate)];
    forall u | u in after ensures exists j :: 0 <= j < |all| && all[j].fate.Parked? && all[j].user == u {
      var j := ParkedSlot(slots, pending, u);
      assert all[j] == slots[j];
    }
  }

  lemma ExtendsTransitive(a: seq<Slot>, b: seq<Slot>, c: seq<Slot>)
    requires Extends(a, b) && Extends(b, c)
    ensures Extends(a, c)
    ensures forall k :: 0 <= k < |a| && !b[k].fate.Parked? ==> !c[k].fate.Parked?
  {
  }

  ghost predicate IsParkedAs(slot: Slot, user: User, entry: PendingBriefing) {
    slot == Slot(user, entry.cutoff, Parked(entry.deadline))
  }

  // ---------- Retries and turns ----------

  lemma RetryExtends(slots: seq<Slot>, k: nat, outcome: Outcome, now: int)
    requires k < |slots| && slots[k].fate.Parked?
    ensures var after := slots[k := slots[k].(fate := RetryFate(slots[k].fate.deadline, outcome, now))];
      && Extends(slots, after)
      && MadeCount(after) == MadeCount(slots) + if outcome.Generated? then 1 else 0
  {
    MadeCountUpdate(slots, k, slots[k].(fate := RetryFate(slots[k].fate.deadline, outcome, now)));
  }

  /** Where the scheduler and what its services record stand at one moment. */
  datatype Moment = Moment(
    slots: seq<Slot>, pending: map<User, PendingBriefing>, tries: seq<Try>, calls: seq<Call>)

  ghost predicate OneRetry(a: Moment, b: Moment, call: Call, now: int) {
    && AreRetries([call], a.pending, now)
    && b.slots == AfterRetries(a.slots, map[call.user := call.outcome], now)
    && b.pending - {call.user} == a.pending - {call.user}
    && b.tries == a.tries && b.calls == a.calls + [call]
  }

  /** What retries with the given calls have done, when the users of `todo` are still to be retried. */
  ghost predicate RetriesDid(a: Moment, b: Moment, retries: seq<Call>, todo: set<User>, now: int) {
    && AreRetries(retries, a.pending, now)
    && todo <= a.pending.Keys && OutcomesOf(retries).Keys == a.pending.Keys - todo
    && b.slots == AfterRetries(a.slots, OutcomesOf(retries), now)
    && (forall u :: u in todo ==> u in b.pending && b.pending[u] == a.pending[u])
    && b.tries == a.tries && b.calls == a.calls + retries
  }

  lemma {:induction false} AfterRetriesAt(slots: seq<Slot>, outcomes: map<User, Outcome>, now: int, k: nat)
    requires k < |slots|
    ensures AfterRetries(slots, outcomes, now)[k] == RetriedSlot(slots[k], outcomes, now)
    decreases |slots|
  {
    if k < |slots| - 1 {
      AfterRetriesAt(Front(slots), outcomes, now, k);
    }
  }

  /** A retry changes the one slot its user's entry stands for. */
  lemma RetriedAt(slots: seq<Slot>, pending: map<User, PendingBriefing>, user: User, outcome: Outcome, now: int, k: nat)
    requires Matches(slots, pending) && user in pending
    requires k < |slots| && IsParkedAs(slots[k], user, pending[user])
    ensures AfterRetries(slots, map[user := outcome], now) ==
      slots[k := slots[k].(fate := RetryFate(slots[k].fate.deadline, outcome, now))]
  {
    forall j | 0 <= j < |slots|
      ensures AfterRetries(slots, map[user := outcome], now)[j] == RetriedSlot(slots[j], map[user := outcome], now)
    {
      AfterRetriesAt(slots, map[user := outcome], now, j);
    }
  }

  lemma {:induction false} NoneRetried(slots: seq<Slot>, now: int)
    ensures AfterRetries(slots, map[], now) == slots
    decreases |slots|
  {
    if slots != [] {
      NoneRetried(Front(slots), now);
    }
  }

  lemma RemoveElsewhere(pending: map<User, PendingBriefing>, user: User)
    ensures pending - {user} - {user} == pending - {user}
  {
  }

  lemma OnlyRetry(call: Call, pending: map<User, PendingBriefing>, now: int)
    requires call.user in pending && call.now == now && call.cutoff == pending[call.user].cutoff
    requires call.deadline == Some(pending[call.user].deadline)
    ensures AreRetries([call], pending, now)
  {
  }

  /** One retry, seen from the slot it concerns. */
  lemma RetryDone(a: Moment, b: Moment, call: Call, now: int, slots: seq<Slot>)
    requires AreRetries([call], a.pending, now)
    requires slots == AfterRetries(a.slots, map[call.user := call.outcome], now)
    requires b.slots == slots && b.tries == a.tries && b.calls == a.calls + [call]
    requires b.pending == a.pending || b.pending == a.pending - {call.user}
    ensures OneRetry(a, b, call, now)
  {
    RemoveElsewhere(a.pending, call.user);
  }

  lemma NoRetries(m: Moment, now: int)
    ensures RetriesDid(m, m, [], m.pending.Keys, now)
  {
    NoneRetried(m.slots, now);
  }

  lemma {:induction false} OneMoreRetried(slots: seq<Slot>, outcomes: map<User, Outcome>, user: User,
                                          outcome: Outcome, now: int)
    requires user !in outcomes
    ensures AfterRetries(AfterRetries(slots, outcomes, now), map[user := outcome], now) ==
      AfterRetries(slots, outcomes[user := outcome], now)
    decreases |slots|
  {
    if slots != [] {
      OneMoreRetried(Front(slots), outcomes, user, outcome, now);
      var after := AfterRetries(slots, outcomes, now);
      assert Front(after) == AfterRetries(Front(slots), outcomes, now);
    }
  }

  lemma OneMoreCall(calls: seq<Call>, call: Call, before: map<User, PendingBriefing>,
                    pending: map<User, PendingBriefing>, now: int)
    requires AreRetries(calls, before, now) && AreRetries([call], pending, now) && call.user !in OutcomesOf(calls)
    requires call.user in pending && call.user in before && before[call.user] == pending[call.user]
    ensures AreRetries(calls + [call], before, now)
    ensures OutcomesOf(calls + [call]) == OutcomesOf(calls)[call.user := call.outcome]
  {
    AppendParts(calls, call);
    CallersHaveOutcomes(calls);
    assert [call][0] == call;
  }

  lemma ElsewhereSame(a: map<User, PendingBriefing>, b: map<User, PendingBriefing>, user: User)
    requires b - {user} == a - {user}
    ensures a.Keys - {user} == b.Keys - {user}
    ensures forall u :: u in a && u != user ==> u in b && b[u] == a[u]
  {
    assert (a - {user}).Keys == a.Keys - {user} && (b - {user}).Keys == b.Keys - {user};
    forall u | u in a && u != user ensures u in b && b[u] == a[u] {
      assert u in a - {user} && u in b - {user};
    }
  }

  lemma OneMoreRetry(a: Moment, b: Moment, c: Moment, retries: seq<Call>, todo: set<User>, call: Call, now: int)
    requires RetriesDid(a, b, retries, todo, now) && OneRetry(b, c, call, now) && call.user in todo
    ensures RetriesDid(a, c, retries + [call], todo - {call.user}, now)
  {
    var outcomes := OutcomesOf(retries);
    OneMoreCall(retries, call, a.pending, b.pending, now);
    OneMoreRetried(a.slots, outcomes, call.user, call.outcome, now);
    ElsewhereSame(b.pending, c.pending, call.user);
    Associates(a.calls, retries, [call]);
  }

  ghost predicate OneTurn(a: Moment, b: Moment, turn: Turn, now: int, latest: RunRule) {
    && b.tries == a.tries + TryOf(turn)
    && b.calls == a.calls + CallOf(turn, now, latest)
    && b.slots == a.slots + SlotOf(turn, now, latest)
    && (turn.Skipped? <==> turn.row.user in a.pending)
    && b.pending - {turn.row.user} == a.pending - {turn.row.user}
  }

  /** What the given turns have done. */
  ghost predicate TurnsDid(a: Moment, b: Moment, turns: seq<Turn>, now: int, latest: RunRule) {
    && b.tries == a.tries + TriesOf(turns)
    && b.calls == a.calls + CallsOf(turns, now, latest)
    && b.slots == a.slots + SlotsOf(turns, now, latest)
  }

  lemma OneMoreTurn(a: Moment, b: Moment, c: Moment, turns: seq<Turn>, turn: Turn, now: int, latest: RunRule)
    requires TurnsDid(a, b, turns, now, latest) && OneTurn(b, c, turn, now, latest)
    ensures TurnsDid(a, c, turns + [turn], now, latest)
    ensures OwedByAll(turns + [turn]) == OwedByAll(turns) + OwedBy(turn)
  {
    AppendParts(turns, turn);
    Associates(a.tries, TriesOf(turns), TryOf(turn));
    Associates(a.calls, CallsOf(turns, now, latest), CallOf(turn, now, latest));
    Associates(a.slots, SlotsOf(turns, now, latest), SlotOf(turn, now, latest));
  }

  /** The first `i` rows had their turns, passed over exactly when their users were pending; the
      others are pending exactly if they were. */
  ghost predicate TurnsSoFar(due: seq<DueRow>, turns: seq<Turn>, before: set<User>, pending: set<User>) {
    && |turns| <= |due|
    && (forall j :: 0 <= j < |turns| ==>
          turns[j].row == due[j] && (turns[j].Skipped? <==> due[j].user in before))
    && forall j :: |turns| <= j < |due| ==> (due[j].user in pending <==> due[j].user in before)
  }

  lemma TurnsOneMore(due: seq<DueRow>, turns: seq<Turn>, before: set<User>, pending: set<User>, turn: Turn,
                     after: set<User>)
    requires forall i, j :: 0 <= i < j < |due| ==> due[i].user != due[j].user
    requires TurnsSoFar(due, turns, before, pending) && |turns| < |due|
    requires turn.row == due[|turns|] && (turn.Skipped? <==> turn.row.user in pending)
    requires after - {turn.row.user} == pending - {turn.row.user}
    ensures TurnsSoFar(due, turns + [turn], before, after)
  {
    forall j | |turns| < j < |due| ensures due[j].user in after <==> due[j].user in before {
      assert due[j].user in after - {turn.row.user} <==> due[j].user in pending - {turn.row.user};
    }
  }

  lemma {:induction false} CallersHaveOutcomes(calls: seq<Call>)
    ensures forall i :: 0 <= i < |calls| ==> calls[i].user in OutcomesOf(calls)
    decreases |calls|
  {
    if calls != [] {
      CallersHaveOutcomes(Front(calls));
      forall i | 0 <= i < |calls| ensures calls[i].user in OutcomesOf(calls) {
        if i < |calls| - 1 {
          assert calls[i] == Front(calls)[i];
        }
      }
    }
  }

  lemma RetriesDecide(slots: seq<Slot>, pending: map<User, PendingBriefing>, outcomes: map<User, Outcome>, now: int)
    requires Matches(slots, pending) && outcomes.Keys == pending.Keys
    ensures ExpiredAreDecided(slots, AfterRetries(slots, outcomes, now), now)
  {
    forall k | 0 <= k < |slots| && slots[k].fate.Parked? && slots[k].fate.deadline <= now
      ensures !AfterRetries(slots, outcomes, now)[k].fate.Parked?
    {
      AfterRetriesAt(slots, outcomes, now, k);
    }
  }

  /** The user's slot stays parked. */
  predicate StaysParked(pending: map<User, PendingBriefing>, outcomes: map<User, Outcome>, now: int, user: User) {
    user in pending && user in outcomes && RetryFate(pending[user].deadline, outcomes[user], now).Parked?
  }

  /** The entries left are those whose slots stay parked. */
  lemma RetriesLeave(slots: seq<Slot>, pending: map<User, PendingBriefing>, outcomes: map<User, Outcome>,
                     after: map<User, PendingBriefing>, now: int, user: User)
    requires Matches(slots, pending) && outcomes.Keys == pending.Keys
    requires Matches(AfterRetries(slots, outcomes, now), after)
    ensures user in after <==> StaysParked(pending, outcomes, now, user)
  {
    if user in after {
      var k := ParkedSlot(AfterRetries(slots, outcomes, now), after, user);
      AfterRetriesAt(slots, outcomes, now, k);
    }
    if user in pending {
      var k := ParkedSlot(slots, pending, user);
      AfterRetriesAt(slots, outcomes, now, k);
    }
  }

  lemma {:induction false} SlotsOfSize(turns: seq<Turn>, now: int, latest: RunRule)
    ensures |SlotsOf(turns, now, latest)| <= |turns|
    decreases |turns|
  {
    if turns != [] {
      SlotsOfSize(Front(turns), now, latest);
    }
  }

  /** The slots a pass records are those whose claims it won. */
  lemma {:induction false} TurnsRecordWinners(turns: seq<Turn>, now: int, latest: RunRule)
    ensures Users(SlotsOf(turns, now, latest)) == Winners(TriesOf(turns))
    decreases |turns|
  {
    if turns != [] {
      var turn := Last(turns);
      TurnsRecordWinners(Front(turns), now, latest);
      WinnersConcat(TriesOf(Front(turns)), TryOf(turn));
      UsersConcat(SlotsOf(Front(turns), now, latest), SlotOf(turn, now, latest));
      WinnersOfOne(turn, now, latest);
    }
  }

  lemma WinnersOfOne(turn: Turn, now: int, latest: RunRule)
    ensures Winners(TryOf(turn)) == Users(SlotOf(turn, now, latest))
  {
    if !turn.Skipped? {
      assert Front(TryOf(turn)) == [];
    }
    if turn.Won? {
      assert Front(SlotOf(turn, now, latest)) == [];
    }
  }

  lemma {:induction false} WinnersConcat(a: seq<Try>, b: seq<Try>)
    ensures Winners(a + b) == Winners(a) + Winners(b)
    decreases |b|
  {
    if b == [] {
      assert a + b == a;
    } else {
      WinnersConcat(a, Front(b));
      AppendConcat(a, b);
      Associates(Winners(a), Winners(Front(b)), if Last(b).won then [Last(b).user] else []);
    }
  }

  lemma {:induction false} UsersConcat(a: seq<Slot>, b: seq<Slot>)
    ensures Users(a + b) == Users(a) + Users(b)
    decreases |b|
  {
    if b == [] {
      assert a + b == a;
    } else {
      UsersConcat(a, Front(b));
      AppendConcat(a, b);
      Associates(Users(a), Users(Front(b)), [Last(b).user]);
    }
  }

  lemma {:induction false} RetriesKeepUsers(slots: seq<Slot>, outcomes: map<User, Outcome>, now: int)
    ensures Users(AfterRetries(slots, outcomes, now)) == Users(slots)
    decreases |slots|
  {
    if slots != [] {
      RetriesKeepUsers(Front(slots), outcomes, now);
      assert Front(AfterRetries(slots, outcomes, now)) == AfterRetries(Front(slots), outcomes, now);
    }
  }

  /** What one pass over the rows of `due` does: every parked slot is retried once; every row has its
      turn, passed over exactly when its user's slot is still parked after the retries; and the claims
      tried, the generation calls made and the slots recorded are those of the retries and the turns. */
  ghost predicate OnePass(a: Moment, b: Moment, due: seq<DueRow>, retries: seq<Call>, turns: seq<Turn>, now: int,
                          latest: RunRule)
  {
    && AreRetries(retries, a.pending, now) && OutcomesOf(retries).Keys == a.pending.Keys
    && |turns| == |due|
    && (forall i :: 0 <= i < |due| ==>
          && turns[i].row == due[i]
          && (turns[i].Skipped? <==> StaysParked(a.pending, OutcomesOf(retries), now, due[i].user)))
    && b.tries == a.tries + TriesOf(turns)
    && b.calls == a.calls + retries + CallsOf(turns, now, latest)
    && b.slots == AfterRetries(a.slots, OutcomesOf(retries), now) + SlotsOf(turns, now, latest)
  }

  lemma PassRecordsWinners(a: Moment, b: Moment, due: seq<DueRow>, retries: seq<Call>, turns: seq<Turn>, now: int,
                           latest: RunRule)
    requires OnePass(a, b, due, retries, turns, now, latest)
    ensures b.tries == a.tries + TriesOf(turns) && Users(b.slots) == Users(a.slots) + Winners(TriesOf(turns))
  {
    var outcomes := OutcomesOf(retries);
    RetriesKeepUsers(a.slots, outcomes, now);
    UsersConcat(AfterRetries(a.slots, outcomes, now), SlotsOf(turns, now, latest));
    TurnsRecordWinners(turns, now, latest);
  }

  /** The retries, then the turns. */
  lemma PassDone(a: Moment, m: Moment, b: Moment, due: seq<DueRow>, retries: seq<Call>, turns: seq<Turn>, now: int,
                 latest: RunRule)
    requires AreRetries(retries, a.pending, now) && OutcomesOf(retries).Keys == a.pending.Keys
    requires m.tries == a.tries && m.calls == a.calls + retries
    requires m.slots == AfterRetries(a.slots, OutcomesOf(retries), now)
    requires forall u :: u in m.pending <==> StaysParked(a.pending, OutcomesOf(retries), now, u)
    requires TurnsDid(m, b, turns, now, latest) && |turns| == |due|
    requires TurnsSoFar(due, turns, m.pending.Keys, b.pending.Keys)
    ensures OnePass(a, b, due, retries, turns, now, latest)
  {
  }

  // ---------- Emails ----------

  /** The requests for delivery rows so far, the delivery table, the briefings finished with email
      enabled, and the retry set. */
  datatype EmailBooks =
    EmailBooks(asks: seq<Ask>, rows: seq<BriefingId>, emailed: set<BriefingId>, unqueued: set<BriefingId>)

  /** Requests, delivery rows and owed emails only grow, and an id leaves the retry set only after a
      request that succeeded, with its row in place. */
  ghost predicate EmailsKept(a: EmailBooks, b: EmailBooks) {
    && a.asks <= b.asks
    && a.rows <= b.rows
    && a.emailed <= b.emailed
    && forall id :: id in a.unqueued && id !in b.unqueued ==> id in b.rows && Ask(id, true) in b.asks[|a.asks|..]
  }

  lemma EmailsKeptTransitive(a: EmailBooks, b: EmailBooks, c: EmailBooks)
    requires EmailsKept(a, b) && EmailsKept(b, c)
    ensures EmailsKept(a, c)
  {
    forall id | id in a.unqueued && id !in c.unqueued ensures id in c.rows && Ask(id, true) in c.asks[|a.asks|..] {
      if id in b.unqueued {
        LaterAsks(b.asks, c.asks, |a.asks|, |b.asks|, Ask(id, true));
      } else {
        assert id in b.rows;
        LaterAsks(b.asks, c.asks, |a.asks|, |b.asks|, Ask(id, true));
      }
    }
  }

  lemma LaterAsks(b: seq<Ask>, c: seq<Ask>, m: nat, n: nat, ask: Ask)
    requires m <= n == |b| && b <= c
    ensures ask in b[m..] || ask in c[n..] ==> ask in c[m..]
  {
    assert c[m..] == b[m..] + c[n..];
  }

  /** The ids a run of requests concerned, and those it did not get through. */
  function AskedIds(asks: seq<Ask>): set<BriefingId> {
    set ask | ask in asks :: ask.id
  }

  function RefusedIds(asks: seq<Ask>): set<BriefingId> {
    set ask | ask in asks && !ask.ok :: ask.id
  }

  /** What requests for the ids of `a`'s retry set but those of `todo` have done. */
  ghost predicate RequestsDid(a: EmailBooks, b: EmailBooks, asked: seq<Ask>, todo: set<BriefingId>) {
    && EmailsKept(a, b) && b.asks == a.asks + asked
    && todo <= a.unqueued && AskedIds(asked) == a.unqueued - todo
    && (forall i, j :: 0 <= i < j < |asked| ==> asked[i].id != asked[j].id)
    && b.unqueued == todo + RefusedIds(asked)
  }

  ghost predicate OneRequest(a: EmailBooks, b: EmailBooks, ask: Ask) {
    && EmailsKept(a, b) && b.asks == a.asks + [ask]
    && b.unqueued == a.unqueued - if ask.ok then {ask.id} else {}
  }

  lemma OneMoreAsk(asks: seq<Ask>, ask: Ask)
    ensures AskedIds(asks + [ask]) == AskedIds(asks) + {ask.id}
    ensures RefusedIds(asks + [ask]) == RefusedIds(asks) + if ask.ok then {} else {ask.id}
    ensures ask.id !in AskedIds(asks) ==> forall i :: 0 <= i < |asks| ==> asks[i].id != ask.id
  {
    var all := asks + [ask];
    assert all[|asks|] == ask;
    forall a | a in asks ensures a in all {
    }
  }

  lemma WaitingAfter(waiting: set<BriefingId>, todo: set<BriefingId>, refused: set<BriefingId>, id: BriefingId)
    requires waiting == todo + refused && id in todo && id !in refused
    ensures waiting - {id} == (todo - {id}) + refused && waiting == (todo - {id}) + (refused + {id})
  {
  }

  lemma RefusedAreAsked(asks: seq<Ask>)
    ensures RefusedIds(asks) <= AskedIds(asks)
  {
  }

  lemma OneMoreRequest(a: EmailBooks, b: EmailBooks, c: EmailBooks, asked: seq<Ask>, todo: set<BriefingId>, ask: Ask)
    requires RequestsDid(a, b, asked, todo) && OneRequest(b, c, ask) && ask.id in todo
    ensures RequestsDid(a, c, asked + [ask], todo - {ask.id})
  {
    OneMoreAsk(asked, ask);
    RefusedAreAsked(asked);
    WaitingAfter(b.unqueued, todo, RefusedIds(asked), ask.id);
    EmailsKeptTransitive(a, b, c);
    Associates(a.asks, asked, [ask]);
  }

  /** An id that was waiting is asked for: it is still waiting at the retry, or left on a request. */
  lemma WaitingAreAsked(a: EmailBooks, b: EmailBooks, c: EmailBooks, asked: seq<Ask>)
    requires EmailsKept(a, b) && AskedIds(asked) == b.unqueued && c.asks == b.asks + asked
    ensures forall id :: id in a.unqueued ==> id in AskedIds(c.asks[|a.asks|..])
  {
    forall id | id in a.unqueued ensures id in AskedIds(c.asks[|a.asks|..]) {
      if id in b.unqueued {
        var ask :| ask in asked && ask.id == id;
        assert c.asks[|b.asks|..] == asked;
        LaterAsks(b.asks, c.asks, |a.asks|, |b.asks|, ask);
      } else {
        LaterAsks(b.asks, c.asks, |a.asks|, |b.asks|, Ask(id, true));
      }
    }
  }

  // ---------- The services ----------

  /** The delivery table: one row per briefing. */
  class DeliveryService {
    var rows: seq<BriefingId>
    ghost var asks: seq<Ask>

    ghost predicate Valid()
      reads this
    {
      forall i, j :: 0 <= i < j < |rows| ==> rows[i] != rows[j]
    }

    /** Idempotent insert that may fail, before or after the row has landed. */
    method EnsurePending(id: BriefingId) returns (ok: bool)
      requires Valid()
      modifies this
      ensures Valid()
      ensures rows == old(rows) || (id !in old(rows) && rows == old(rows) + [id])
      ensures ok ==> id in rows
      ensures asks == old(asks) + [Ask(id, ok)]
    {
      var lands: bool := *;
      ok := *;
      ok := ok && lands;
      asks := asks + [Ask(id, ok)];
      if lands && id !in rows {
        rows := rows + [id];
      }
    }
  }

  /** Rows as of the scan; claims and later reads may find anything, since other instances and
      users change the table in between. */
  class ScheduleRepository {
    const latestRun: RunRule
    ghost var scans: seq<Scan>
    ghost var tries: seq<Try>
    ghost var switches: seq<SwitchRead>

    constructor (latestRun: RunRule)
      ensures this.latestRun == latestRun && scans == [] && tries == [] && switches == []
    {
      this.latestRun, scans, tries, switches := latestRun, [], [], [];
    }

    method Due(now: int, limit: nat) returns (due: seq<DueRow>)
      modifies this`scans
      ensures scans == old(scans) + [Scan(now, limit, due)]
      ensures |due| <= limit
      ensures forall i, j :: 0 <= i < j < |due| ==> due[i].user != due[j].user
      ensures forall i :: 0 <= i < |due| ==> due[i].slot <= now
    {
      due := [];
      for n := 0 to limit
        invariant |due| <= n
        invariant forall i, j :: 0 <= i < j < |due| ==> due[i].user != due[j].user
        invariant forall i :: 0 <= i < |due| ==> due[i].slot <= now
      {
        var row: DueRow := *;
        if row.slot <= now && forall i :: 0 <= i < |due| ==> due[i].user != row.user {
          due := due + [row];
        }
      }
      scans := scans + [Scan(now, limit, due)];
    }

    method Claim(user: User, expected: int) returns (claimed: bool)
      modifies this`tries
      ensures tries == old(tries) + [Try(user, expected, claimed)]
    {
      claimed := *;
      tries := tries + [Try(user, expected, claimed)];
    }

    /** The current email switch; false also when the row is gone. */
    method EmailEnabled(user: User) returns (enabled: bool)
      modifies this`switches
      ensures switches == old(switches) + [SwitchRead(user, enabled)]
    {
      enabled := *;
      switches := switches + [SwitchRead(user, enabled)];
    }
  }

  class BriefingService {
    ghost var calls: seq<Call>

    constructor ()
      ensures calls == []
    {
      calls := [];
    }

    method GenerateForUser(user: User, now: int, cutoff: int, deadline: Option<int>) returns (outcome: Outcome)
      modifies this
      ensures calls == old(calls) + [Call(user, now, cutoff, deadline, outcome)]
    {
      outcome := *;
      calls := calls + [Call(user, now, cutoff, deadline, outcome)];
    }
  }

  // ---------- The scheduler ----------

  class Scheduler {
    const schedules: ScheduleRepository
    const briefings: BriefingService
    const delivery: DeliveryService?
    const maxPerTick: nat
    var pendingBriefings: map<User, PendingBriefing>
    var unqueuedDeliveries: set<BriefingId>
    /** Every slot this process claimed, with its fate. */
    ghost var slots: seq<Slot>
    /** Every briefing this process finished with email enabled. */
    ghost var emailed: set<BriefingId>

    /** The rows of the delivery table; none without a delivery service. */
    ghost function Rows(): seq<BriefingId>
      reads this, delivery
    {
      if delivery == null then [] else delivery.rows
    }

    ghost function Asks(): seq<Ask>
      reads this, delivery
    {
      if delivery == null then [] else delivery.asks
    }

    ghost function Emails(): EmailBooks
      reads this, delivery
    {
      EmailBooks(Asks(), Rows(), emailed, unqueuedDeliveries)
    }

    /** Parked slots and pending entries agree; and each briefing finished with email enabled has a
        delivery row or is waiting in the retry set. */
    ghost predicate Valid()
      reads this, delivery
    {
      && Matches(slots, pendingBriefings)
      && unqueuedDeliveries <= emailed
      && (delivery == null ==> emailed == {})
      && (delivery != null ==> delivery.Valid())
      && (forall b :: b in emailed ==> b in Rows() || b in unqueuedDeliveries)
    }

    /** A process starts with empty memory over whatever the delivery table holds. */
    constructor (schedules: ScheduleRepository, briefings: BriefingService, delivery: DeliveryService?, maxPerTick: nat)
      requires delivery != null ==> delivery.Valid()
      ensures Valid() && slots == [] && emailed == {}
      ensures this.schedules == schedules && this.briefings == briefings
      ensures this.delivery == delivery && this.maxPerTick == maxPerTick
    {
      this.schedules, this.briefings, this.delivery, this.maxPerTick := schedules, briefings, delivery, maxPerTick;
      pendingBriefings, unqueuedDeliveries := map[], {};
      slots, emailed := [], {};
    }

    /** The email is queued now or, when that fails, buffered for the next tick. */
    method QueueDelivery(id: BriefingId)
      requires Valid() && delivery != null
      modifies this`unqueuedDeliveries, this`emailed, delivery
      ensures Valid() && emailed == old(emailed) + {id}
      ensures Asks() == old(Asks()) + [Ask(id, id !in unqueuedDeliveries)]
      ensures unqueuedDeliveries - {id} == old(unqueuedDeliveries) - {id}
      ensures EmailsKept(old(Emails()), Emails())
    {
      emailed := emailed + {id};
      var ok := delivery.EnsurePending(id);
      if ok {
        unqueuedDeliveries := unqueuedDeliveries - {id};
      } else {
        unqueuedDeliveries := unqueuedDeliveries + {id};
      }
      assert Asks()[|old(Asks())|..] == [Ask(id, ok)];
    }

    method FinishGeneration(id: BriefingId, emailEnabled: bool)
      requires Valid()
      modifies this`unqueuedDeliveries, this`emailed, delivery
      ensures Valid()
      ensures emailed == if emailEnabled && delivery != null then old(emailed) + {id} else old(emailed)
      ensures Asks() == if emailEnabled && delivery != null
                        then old(Asks()) + [Ask(id, id !in unqueuedDeliveries)] else old(Asks())
      ensures EmailsKept(old(Emails()), Emails())
    {
      if emailEnabled && delivery != null {
        QueueDelivery(id);
      }
    }

    /** One more request for a waiting id, which leaves the set exactly when the request succeeds. */
    method RequestAgain(id: BriefingId) returns (ok: bool)
      requires Valid() && delivery != null && id in unqueuedDeliveries
      modifies this`unqueuedDeliveries, delivery
      ensures Valid() && OneRequest(old(Emails()), Emails(), Ask(id, ok))
    {
      ok := delivery.EnsurePending(id);
      if ok {
        unqueuedDeliveries := unqueuedDeliveries - {id};
      }
      assert Asks()[|old(Asks())|..] == [Ask(id, ok)];
    }

    /** Every id of the set is requested once more, and leaves the set exactly when its request
        succeeds. */
    method RetryUnqueuedDeliveries() returns (ghost asked: seq<Ask>)
      requires Valid() && delivery != null
      modifies this`unqueuedDeliveries, delivery
      ensures Valid() && Asks() == old(Asks()) + asked
      ensures forall i, j :: 0 <= i < j < |asked| ==> asked[i].id != asked[j].id
      ensures AskedIds(asked) == old(unqueuedDeliveries) && unqueuedDeliveries == RefusedIds(asked)
      ensures EmailsKept(old(Emails()), Emails())
    {
      var todo := unqueuedDeliveries;
      asked := [];
      ghost var books0 := Emails();
      while todo != {}
        invariant Valid() && RequestsDid(books0, Emails(), asked, todo)
        decreases |todo|
      {
        ghost var books := Emails();
        var id :| id in todo;
        var ok := RequestAgain(id);
        OneMoreRequest(books0, books, Emails(), asked, todo, Ask(id, ok));
        asked, todo := asked + [Ask(id, ok)], todo - {id};
      }
    }

    /** Takes a user's entry out of the pending map; its slot is settled. */
    method PopPending(user: User, ghost fate: Fate) returns (ghost k: nat)
      requires Valid() && user in pendingBriefings && Settles(Parked(pendingBriefings[user].deadline), fate)
      modifies this`pendingBriefings, this`slots
      ensures Valid() && pendingBriefings == old(pendingBriefings) - {user}
      ensures k < |old(slots)| && IsParkedAs(old(slots)[k], user, old(pendingBriefings[user]))
      ensures slots == old(slots)[k := old(slots)[k].(fate := fate)]
    {
      k := ParkedSlot(slots, pendingBriefings, user);
      DecisionKeepsMatch(slots, pendingBriefings, k, fate);
      pendingBriefings := pendingBriefings - {user};
      slots := slots[k := slots[k].(fate := fate)];
    }

    /** One retry of a parked slot: one generation call with the entry's cutoff and deadline, whose
        outcome gives the slot its fate; the entry goes exactly when the slot is settled. A briefing
        made is owed an email if the switch, read then, is on. */
    method RetryPending(user: User, now: int)
      returns (generated: nat, ghost outcome: Outcome, ghost k: nat, ghost enabled: bool)
      requires Valid() && user in pendingBriefings
      modifies this, delivery, briefings, schedules`switches
      ensures Valid() && generated == if outcome.Generated? then 1 else 0
      ensures var entry := old(pendingBriefings[user]);
        briefings.calls == old(briefings.calls) + [Call(user, now, entry.cutoff, Some(entry.deadline), outcome)]
      ensures k < |old(slots)| && IsParkedAs(old(slots)[k], user, old(pendingBriefings[user]))
      ensures slots == old(slots)[k := old(slots)[k].(fate := RetryFate(old(slots)[k].fate.deadline, outcome, now))]
      ensures slots[k].fate.Parked? <==>
        (outcome.Raised? || outcome.Deferred?) && now < old(pendingBriefings[user].deadline)
      ensures slots[k].fate.FoundEmpty? <==> outcome.Empty?
      ensures outcome.Generated? ==> slots[k].fate == Made(outcome.briefing)
      ensures outcome.Generated? ==> schedules.switches == old(schedules.switches) + [SwitchRead(user, enabled)]
      ensures emailed == if outcome.Generated? && enabled && delivery != null
                         then old(emailed) + {outcome.briefing} else old(emailed)
      ensures pendingBriefings == if slots[k].fate.Parked? then old(pendingBriefings)
                                  else old(pendingBriefings) - {user}
      ensures EmailsKept(old(Emails()), Emails())
    {
      generated, enabled := 0, false;
      var pending := pendingBriefings[user];
      k := ParkedSlot(slots, pendingBriefings, user);
      var result := briefings.GenerateForUser(user, now, pending.cutoff, Some(pending.deadline));
      outcome := result;
      ghost var fate := RetryFate(pending.deadline, outcome, now);
      if result.Raised? || result.Deferred? {
        if now >= pending.deadline {
          k := PopPending(user, fate);
        }
      } else {
        k := PopPending(user, fate);
        if result.Generated? {
          var emailEnabled := schedules.EmailEnabled(user);
          generated, enabled := 1, emailEnabled;
          FinishGeneration(result.briefing, emailEnabled);
        }
      }
    }

    ghost function State(): Moment
      reads this, schedules, briefings
    {
      Moment(slots, pendingBriefings, schedules.tries, briefings.calls)
    }

    /** What was kept since the given slots and books, `generated` briefings later. */
    ghost predicate Kept(slots0: seq<Slot>, books0: EmailBooks, generated: int)
      reads this, delivery
    {
      && Extends(slots0, slots)
      && generated == MadeCount(slots) - MadeCount(slots0)
      && EmailsKept(books0, Emails())
    }

    /** What two stretches keep, one after the other. */
    lemma KeptOn(slots0: seq<Slot>, books0: EmailBooks, slots1: seq<Slot>, books1: EmailBooks, m: int, n: int)
      requires Extends(slots0, slots1) && m == MadeCount(slots1) - MadeCount(slots0)
      requires EmailsKept(books0, books1) && Kept(slots1, books1, n)
      ensures Kept(slots0, books0, m + n)
    {
      ExtendsTransitive(slots0, slots1, slots);
      EmailsKeptTransitive(books0, books1, Emails());
    }

    /** One step of the retry loop. */
    method RetryNext(user: User, now: int) returns (generated: nat, ghost call: Call)
      requires Valid() && user in pendingBriefings
      modifies this, delivery, briefings, schedules`switches
      ensures Valid() && Kept(old(slots), old(Emails()), generated)
      ensures call.user == user && OneRetry(old(State()), State(), call, now)
    {
      ghost var outcome, k, enabled;
      ghost var before := State();
      generated, outcome, k, enabled := RetryPending(user, now);
      call := Call(user, now, before.pending[user].cutoff, Some(before.pending[user].deadline), outcome);
      OnlyRetry(call, before.pending, now);
      RetriedAt(before.slots, before.pending, user, outcome, now, k);
      RetryExtends(before.slots, k, outcome, now);
      RetryDone(before, State(), call, now, slots);
    }

    /** The same, counted from the start of the loop. */
    method RetryFurther(user: User, now: int, ghost before: Moment, ghost books0: EmailBooks,
                        ghost retries: seq<Call>, ghost todo: set<User>, soFar: nat)
      returns (generated: nat, ghost call: Call)
      requires Valid() && user in todo
      requires RetriesDid(before, State(), retries, todo, now) && Kept(before.slots, books0, soFar)
      modifies this, delivery, briefings, schedules`switches
      ensures Valid() && RetriesDid(before, State(), retries + [call], todo - {user}, now)
      ensures Kept(before.slots, books0, generated)
    {
      ghost var middle, books := State(), Emails();
      var n;
      n, call := RetryNext(user, now);
      OneMoreRetry(before, middle, State(), retries, todo, call, now);
      KeptOn(before.slots, books0, middle.slots, books, soFar, n);
      generated := soFar + n;
    }

    /** The retry loop over the users parked when it starts. */
    method RetryEach(now: int) returns (generated: nat, ghost retries: seq<Call>)
      requires Valid()
      modifies this, delivery, briefings, schedules`switches
      ensures Valid() && RetriesDid(old(State()), State(), retries, {}, now)
      ensures Kept(old(slots), old(Emails()), generated)
    {
      generated, retries := 0, [];
      ghost var before, books0 := State(), Emails();
      var todo := pendingBriefings.Keys;
      NoRetries(before, now);
      while todo != {}
        invariant Valid() && RetriesDid(before, State(), retries, todo, now)
        invariant Kept(before.slots, books0, generated)
        decreases todo
      {
        var user :| user in todo;
        ghost var call;
        generated, call := RetryFurther(user, now, before, books0, retries, todo, generated);
        retries := retries + [call];
        todo := todo - {user};
      }
    }

    /** Every parked slot is retried exactly once, with its own cutoff and deadline, and takes the
        fate of the outcome; none whose deadline has come stays parked. */
    method RetryPendingBriefings(now: int) returns (generated: nat, ghost retries: seq<Call>)
      requires Valid()
      modifies this, delivery, briefings, schedules`switches
      ensures Valid() && Extends(old(slots), slots) && |slots| == |old(slots)|
      ensures briefings.calls == old(briefings.calls) + retries && AreRetries(retries, old(pendingBriefings), now)
      ensures OutcomesOf(retries).Keys == old(pendingBriefings).Keys
      ensures slots == AfterRetries(old(slots), OutcomesOf(retries), now)
      ensures forall u :: u in pendingBriefings <==> StaysParked(old(pendingBriefings), OutcomesOf(retries), now, u)
      ensures ExpiredAreDecided(old(slots), slots, now)
      ensures generated == MadeCount(slots) - MadeCount(old(slots))
      ensures EmailsKept(old(Emails()), Emails())
    {
      generated, retries := RetryEach(now);
      RetriesDecide(old(slots), old(pendingBriefings), OutcomesOf(retries), now);
      forall u ensures u in pendingBriefings <==> StaysParked(old(pendingBriefings), OutcomesOf(retries), now, u) {
        RetriesLeave(old(slots), old(pendingBriefings), OutcomesOf(retries), pendingBriefings, now, u);
      }
    }

    /** A claimed slot is on the books with the fate of its first attempt, parked when deferred. */
    method RecordSlot(user: User, cutoff: int, outcome: Outcome)
      requires Valid() && user !in pendingBriefings
      modifies this`pendingBriefings, this`slots
      ensures Valid() && slots == old(slots) + [Slot(user, cutoff, FirstFate(outcome))]
      ensures Extends(old(slots), slots)
      ensures MadeCount(slots) == MadeCount(old(slots)) + if outcome.Generated? then 1 else 0
      ensures pendingBriefings == if outcome.Deferred?
                                  then old(pendingBriefings)[user := PendingBriefing(cutoff, outcome.deadline)]
                                  else old(pendingBriefings)
    {
      ghost var slot := Slot(user, cutoff, FirstFate(outcome));
      ClaimKeepsMatch(slots, pendingBriefings, slot);
      MadeCountAppend(slots, slot);
      slots := slots + [slot];
      if outcome.Deferred? {
        pendingBriefings := pendingBriefings[user := PendingBriefing(cutoff, outcome.deadline)];
      }
    }

    /** What follows a won claim: the first generation attempt, and the email of a briefing made. */
    method GenerateClaimed(user: User, now: int, cutoff: int, emailEnabled: bool)
      returns (generated: nat, ghost outcome: Outcome)
      requires Valid() && user !in pendingBriefings
      modifies this, delivery, briefings
      ensures Valid() && slots == old(slots) + [Slot(user, cutoff, FirstFate(outcome))]
      ensures Extends(old(slots), slots)
      ensures briefings.calls == old(briefings.calls) + [Call(user, now, cutoff, None, outcome)]
      ensures emailed == if outcome.Generated? && emailEnabled && delivery != null
                         then old(emailed) + {outcome.briefing} else old(emailed)
      ensures pendingBriefings == if outcome.Deferred?
                                  then old(pendingBriefings)[user := PendingBriefing(cutoff, outcome.deadline)]
                                  else old(pendingBriefings)
      ensures generated == if outcome.Generated? then 1 else 0
      ensures MadeCount(slots) == MadeCount(old(slots)) + generated
      ensures EmailsKept(old(Emails()), Emails())
    {
      generated := 0;
      var result := briefings.GenerateForUser(user, now, cutoff, None);
      outcome := result;
      RecordSlot(user, cutoff, result);
      if result.Generated? {
        generated := 1;
        FinishGeneration(result.briefing, emailEnabled);
      }
    }

    /** One due row. It is passed over exactly while the user's slot is parked; otherwise its claim is
        tried once. A lost claim changes nothing and makes no call; a won one makes one call, with the
        latest nominal run as its cutoff, and is recorded with the fate of that attempt. */
    method ProcessDue(row: DueRow, now: int) returns (generated: nat, ghost turn: Turn)
      requires Valid()
      modifies this, delivery, briefings, schedules`tries
      ensures Valid() && Extends(old(slots), slots)
      ensures turn.row == row && (turn.Skipped? <==> row.user in old(pendingBriefings))
      ensures schedules.tries ==
        if turn.Skipped? then old(schedules.tries) else old(schedules.tries) + [Try(row.user, row.slot, turn.Won?)]
      ensures briefings.calls ==
        if turn.Won?
        then old(briefings.calls) + [Call(row.user, now, schedules.latestRun(row, now), None, turn.outcome)]
        else old(briefings.calls)
      ensures !turn.Won? ==> slots == old(slots)
      ensures turn.Won? ==>
        var fate := match turn.outcome
                    case Raised => GenerationFailed
                    case Deferred(deadline) => Parked(deadline)
                    case Empty => FoundEmpty
                    case Generated(b) => Made(b);
        slots == old(slots) + [Slot(row.user, schedules.latestRun(row, now), fate)]
      ensures emailed == if delivery != null then old(emailed) + OwedBy(turn) else old(emailed)
      ensures pendingBriefings ==
        if turn.Won? && turn.outcome.Deferred?
        then old(pendingBriefings)[row.user := PendingBriefing(schedules.latestRun(row, now), turn.outcome.deadline)]
        else old(pendingBriefings)
      ensures generated == if turn.Won? && turn.outcome.Generated? then 1 else 0
      ensures generated == MadeCount(slots) - MadeCount(old(slots))
      ensures EmailsKept(old(Emails()), Emails())
    {
      generated, turn := 0, Skipped(row);
      if row.user in pendingBriefings {
        return;
      }
      var cutoff := schedules.latestRun(row, now);
      var won := schedules.Claim(row.user, row.slot);
      turn := Lost(row);
      if !won {
        return;
      }
      ghost var outcome;
      generated, outcome := GenerateClaimed(row.user, now, cutoff, row.emailEnabled);
      turn := Won(row, outcome);
    }

    /** One step of the loop over the due rows. */
    method NextTurn(row: DueRow, now: int) returns (generated: nat, ghost turn: Turn)
      requires Valid()
      modifies this, delivery, briefings, schedules`tries
      ensures Valid() && Kept(old(slots), old(Emails()), generated)
      ensures turn.row == row && OneTurn(old(State()), State(), turn, now, schedules.latestRun)
      ensures emailed == if delivery != null then old(emailed) + OwedBy(turn) else old(emailed)
    {
      ghost var pending := pendingBriefings;
      generated, turn := ProcessDue(row, now);
      assert pendingBriefings - {row.user} == pending - {row.user} by {
        if turn.Won? && turn.outcome.Deferred? {
          UpdateElsewhere(pending, row.user, pendingBriefings[row.user]);
        }
      }
    }

    /** The same, counted from the start of the loop. */
    method TurnFurther(row: DueRow, now: int, ghost due: seq<DueRow>, ghost before: Moment, ghost books0: EmailBooks,
                       ghost turns: seq<Turn>, soFar: nat)
      returns (generated: nat, ghost turn: Turn)
      requires Valid() && |turns| < |due| && row == due[|turns|]
      requires forall i, j :: 0 <= i < j < |due| ==> due[i].user != due[j].user
      requires TurnsDid(before, State(), turns, now, schedules.latestRun) && Kept(before.slots, books0, soFar)
      requires TurnsSoFar(due, turns, before.pending.Keys, pendingBriefings.Keys)
      requires delivery != null ==> OwedByAll(turns) <= emailed
      modifies this, delivery, briefings, schedules`tries
      ensures Valid() && TurnsDid(before, State(), turns + [turn], now, schedules.latestRun)
      ensures Kept(before.slots, books0, generated)
      ensures TurnsSoFar(due, turns + [turn], before.pending.Keys, pendingBriefings.Keys)
      ensures delivery != null ==> OwedByAll(turns + [turn]) <= emailed
    {
      ghost var middle, books := State(), Emails();
      var n;
      n, turn := NextTurn(row, now);
      OneMoreTurn(before, middle, State(), turns, turn, now, schedules.latestRun);
      ElsewhereSame(middle.pending, pendingBriefings, turn.row.user);
      TurnsOneMore(due, turns, before.pending.Keys, middle.pending.Keys, turn, pendingBriefings.Keys);
      KeptOn(before.slots, books0, middle.slots, books, soFar, n);
      generated := soFar + n;
    }

    /** The loop over the due rows: each has its turn, in order. */
    method ProcessAllDue(due: seq<DueRow>, now: int) returns (generated: nat, ghost turns: seq<Turn>)
      requires Valid() && forall i, j :: 0 <= i < j < |due| ==> due[i].user != due[j].user
      modifies this, delivery, briefings, schedules`tries
      ensures Valid() && |turns| == |due|
      ensures TurnsDid(old(State()), State(), turns, now, schedules.latestRun)
      ensures TurnsSoFar(due, turns, old(pendingBriefings).Keys, pendingBriefings.Keys)
      ensures Kept(old(slots), old(Emails()), generated)
      ensures delivery != null ==> OwedByAll(turns) <= emailed
    {
      generated, turns := 0, [];
      ghost var before, books0 := State(), Emails();
      for i := 0 to |due|
        invariant Valid() && |turns| == i
        invariant TurnsDid(before, State(), turns, now, schedules.latestRun)
        invariant TurnsSoFar(due, turns, before.pending.Keys, pendingBriefings.Keys)
        invariant Kept(before.slots, books0, generated)
        invariant delivery != null ==> OwedByAll(turns) <= emailed
      {
        ghost var turn;
        generated, turn := TurnFurther(due[i], now, due, before, books0, turns, generated);
        turns := turns + [turn];
      }
    }

    /** Every id still waiting is requested again, when there is a delivery service. */
    method DeliveryPhase(ghost books0: EmailBooks)
      requires Valid() && EmailsKept(books0, Emails())
      modifies this`unqueuedDeliveries, delivery
      ensures Valid() && EmailsKept(books0, Emails())
      ensures delivery != null ==> forall id :: id in books0.unqueued ==> id in AskedIds(Asks()[|books0.asks|..])
    {
      if delivery != null {
        ghost var books := Emails();
        ghost var asked := RetryUnqueuedDeliveries();
        WaitingAreAsked(books0, books, Emails(), asked);
        EmailsKeptTransitive(books0, books, Emails());
      }
    }

    /** The retries and then the due rows. */
    method Rounds(due: seq<DueRow>, now: int) returns (generated: nat, ghost retries: seq<Call>, ghost turns: seq<Turn>)
      requires Valid() && forall i, j :: 0 <= i < j < |due| ==> due[i].user != due[j].user
      modifies this, delivery, briefings, schedules`tries, schedules`switches
      ensures Valid() && |slots| <= |old(slots)| + |due|
      ensures OnePass(old(State()), State(), due, retries, turns, now, schedules.latestRun)
      ensures delivery != null ==> OwedByAll(turns) <= emailed
      ensures ExpiredAreDecided(old(slots), slots, now)
      ensures Kept(old(slots), old(Emails()), generated)
    {
      ghost var before, books0 := State(), Emails();
      var made;
      made, retries := RetryPendingBriefings(now);
      ghost var middle, books := State(), Emails();
      var n;
      n, turns := ProcessAllDue(due, now);
      generated := made + n;
      PassDone(before, middle, State(), due, retries, turns, now, schedules.latestRun);
      SlotsOfSize(turns, now, schedules.latestRun);
      KeptOn(before.slots, books0, middle.slots, books, made, n);
    }

    /** One pass over one scan. No claimed slot is lost or decided twice, none parked before with its
        deadline come stays parked, and every id waiting for a delivery row is requested again. */
    method Tick(now: int)
      returns (generated: nat, ghost due: seq<DueRow>, ghost retries: seq<Call>, ghost turns: seq<Turn>)
      requires Valid()
      modifies this, delivery, briefings, schedules
      ensures Valid() && Extends(old(slots), slots) && |slots| <= |old(slots)| + maxPerTick
      ensures schedules.scans == old(schedules.scans) + [Scan(now, maxPerTick, due)]
      ensures OnePass(old(State()), State(), due, retries, turns, now, schedules.latestRun)
      ensures delivery != null ==> OwedByAll(turns) <= emailed
      ensures ExpiredAreDecided(old(slots), slots, now)
      ensures generated == MadeCount(slots) - MadeCount(old(slots))
      ensures EmailsKept(old(Emails()), Emails())
      ensures delivery != null ==>
        forall id :: id in old(unqueuedDeliveries) ==> id in AskedIds(Asks()[|old(Asks())|..])
    {
      var rows := schedules.Due(now, maxPerTick);
      due := rows;
      generated, retries, turns := Rounds(rows, now);
      DeliveryPhase(old(Emails()));
    }
  }

  /** One more tick of a run that won the claims of `won`. */
  method TickFurther(s: Scheduler, now: int, ghost users0: seq<User>, ghost won: seq<Try>)
    returns (ghost more: seq<Try>)
    requires s.Valid() && Users(s.slots) == users0 + Winners(won)
    modifies s, s.delivery, s.briefings, s.schedules
    ensures s.Valid() && Extends(old(s.slots), s.slots) && old(s.Rows()) <= s.Rows()
    ensures s.schedules.tries == old(s.schedules.tries) + more
    ensures Users(s.slots) == users0 + Winners(won + more)
  {
    var generated, due, retries, turns := s.Tick(now);
    more := TriesOf(turns);
    PassRecordsWinners(old(s.State()), s.State(), due, retries, turns, now, s.schedules.latestRun);
    WinnersConcat(won, more);
    Associates(users0, Winners(won), Winners(more));
  }

  /** Any number of ticks of one process, at any times: the books balance, the slots recorded are
      exactly the claims won, and no email is lost. */
  method RunTicks(s: Scheduler, times: seq<int>)
    requires s.Valid()
    modifies s, s.delivery, s.briefings, s.schedules
    ensures s.Valid() && Extends(old(s.slots), s.slots) && old(s.Rows()) <= s.Rows()
    ensures old(s.schedules.tries) <= s.schedules.tries
    ensures Users(s.slots) == Users(old(s.slots)) + Winners(s.schedules.tries[|old(s.schedules.tries)|..])
    ensures |s.slots| == Count(s.slots, (f: Fate) => f.Made?) + Count(s.slots, (f: Fate) => f.FoundEmpty?)
      + Count(s.slots, (f: Fate) => f.GenerationFailed?) + Count(s.slots, (f: Fate) => f.Abandoned?)
      + |s.pendingBriefings|
    ensures forall b :: b in s.emailed ==> b in s.Rows() || b in s.unqueuedDeliveries
    ensures forall i, j :: 0 <= i < j < |s.Rows()| ==> s.Rows()[i] != s.Rows()[j]
  {
    ghost var tries0 := s.schedules.tries;
    ghost var won: seq<Try> := [];
    for i := 0 to |times|
      invariant s.Valid() && Extends(old(s.slots), s.slots) && old(s.Rows()) <= s.Rows()
      invariant s.schedules.tries == tries0 + won
      invariant Users(s.slots) == Users(old(s.slots)) + Winners(won)
    {
      ghost var before := s.slots;
      ghost var more := TickFurther(s, times[i], Users(old(s.slots)), won);
      ExtendsTransitive(old(s.slots), before, s.slots);
      won := won + more;
    }
    assert s.schedules.tries[|tries0|..] == won;
    SlotsAreConserved(s.slots, s.pendingBriefings);
  }
}
