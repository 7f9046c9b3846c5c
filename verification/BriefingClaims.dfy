// Claiming scheduled briefing slots: any number of scheduler instances tick over one shared
// schedule table, interleave in any way, and are restarted at any point.
module BriefingClaims {
  import opened Common

  datatype User = User(id: string)

  /** A schedule row: `nextRunAt` is the materialized due time. */
  datatype Row = Row(enabled: bool, nextRunAt: Option<int>)

  /** A row as the due scan returned it: the slot is its `nextRunAt` at the time of the scan. */
  datatype Due = Due(user: User, slot: int)

  datatype Phase = Idle | Ticking(now: int, due: seq<Due>)

  /** A won claim: the slot, the clock of the tick, and the time the row was moved to. */
  datatype Claim = Claim(user: User, slot: int, at: int, next: int)

  datatype State = State(table: map<User, Row>, instances: map<nat, Phase>, claims: seq<Claim>) {
    function PhaseOf(i: nat): Phase {
      if i in instances then instances[i] else Idle
    }
  }

  /** What can happen next. A tick scans for due rows and then, row by row, passes a user whose
      slot it has parked or tries to claim. `Restart` loses whatever the instance held. */
  datatype Step =
    | BeginTick(i: nat, now: int, due: seq<Due>)
    | PassParked(i: nat)
    | TryClaim(i: nat, next: int)
    | EndTick(i: nat)
    | Restart(i: nat)
    | Edit(user: User, clock: int, enabled: bool, next: int)

  predicate RowIsDue(table: map<User, Row>, d: Due, now: int) {
    d.user in table && table[d.user].enabled && table[d.user].nextRunAt == Some(d.slot) && d.slot <= now
  }

  /** Next occurrences lie strictly after the time they are computed for; nothing else is known
      about the cadence. */
  predicate Possible(s: State, step: Step) {
    match step
    case BeginTick(i, now, due) =>
      s.PhaseOf(i).Idle? && forall k :: 0 <= k < |due| ==> RowIsDue(s.table, due[k], now)
    case PassParked(i) => s.PhaseOf(i).Ticking? && s.PhaseOf(i).due != []
    case TryClaim(i, next) => s.PhaseOf(i).Ticking? && s.PhaseOf(i).due != [] && next > s.PhaseOf(i).now
    case EndTick(i) => s.PhaseOf(i).Ticking? && s.PhaseOf(i).due == []
    case Restart(_) => true
    case Edit(_, clock, enabled, next) => enabled ==> next > clock
  }

  /** The conditional update: it moves the row only when the row still shows the expected slot. */
  function ClaimRow(table: map<User, Row>, d: Due, next: int): (map<User, Row>, bool) {
    if d.user in table && table[d.user].enabled && table[d.user].nextRunAt == Some(d.slot)
    then (table[d.user := Row(true, Some(next))], true)
    else (table, false)
  }

  function Apply(s: State, step: Step): State
    requires Possible(s, step)
  {
    match step
    case BeginTick(i, now, due) => s.(instances := s.instances[i := Ticking(now, due)])
    case PassParked(i) =>
      var t := s.PhaseOf(i);
      s.(instances := s.instances[i := Ticking(t.now, t.due[1..])])
    case TryClaim(i, next) =>
      var t := s.PhaseOf(i);
      var d := t.due[0];
      var (table, won) := ClaimRow(s.table, d, next);
      State(table, s.instances[i := Ticking(t.now, t.due[1..])],
            if won then s.claims + [Claim(d.user, d.slot, t.now, next)] else s.claims)
    case EndTick(i) => s.(instances := s.instances[i := Idle])
    case Restart(i) => s.(instances := s.instances[i := Idle])
    case Edit(user, _, enabled, next) =>
      s.(table := s.table[user := Row(enabled, if enabled then Some(next) else None)])
  }

  predicate IsRun(s: State, steps: seq<Step>)
    decreases |steps|
  {
    steps == [] || (Possible(s, steps[0]) && IsRun(Apply(s, steps[0]), steps[1..]))
  }

  function After(s: State, steps: seq<Step>): State
    requires IsRun(s, steps)
    decreases |steps|
  {
    if steps == [] then s else After(Apply(s, steps[0]), steps[1..])
  }

  predicate Initial(s: State) {
    s.instances == map[] && s.claims == []
  }

  // ---------- No slot is claimed twice ----------

  /** An edit that enables the row puts it past every slot already claimed for the user. */
  predicate StaysAhead(s: State, step: Step) {
    step.Edit? && step.enabled ==>
      forall c :: 0 <= c < |s.claims| && s.claims[c].user == step.user ==> s.claims[c].slot < step.next
  }

  predicate EditsStayAhead(s: State, steps: seq<Step>)
    requires IsRun(s, steps)
    decreases |steps|
  {
    steps == [] || (StaysAhead(s, steps[0]) && EditsStayAhead(Apply(s, steps[0]), steps[1..]))
  }

  ghost predicate ClaimedOnce(claims: seq<Claim>) {
    forall a, b :: 0 <= a < b < |claims| ==> !(claims[a].user == claims[b].user && claims[a].slot == claims[b].slot)
  }

  /** The slots claimed for a user increase, and the row and every scan are past them or at them. */
  ghost predicate SlotsIncrease(s: State) {
    && (forall c :: 0 <= c < |s.claims| ==> s.claims[c].slot <= s.claims[c].at < s.claims[c].next)
    && (forall a, b :: 0 <= a < b < |s.claims| && s.claims[a].user == s.claims[b].user ==>
          s.claims[a].slot < s.claims[b].slot)
    && (forall c :: 0 <= c < |s.claims| && s.claims[c].user in s.table ==>
          var n := s.table[s.claims[c].user].nextRunAt; n.Some? ==> s.claims[c].slot < n.value)
    && (forall i, k :: i in s.instances && s.instances[i].Ticking? && 0 <= k < |s.instances[i].due| ==>
          s.instances[i].due[k].slot <= s.instances[i].now)
  }

  lemma SlotsIncreaseClaim(s: State, claim: Step)
    requires SlotsIncrease(s) && claim.TryClaim? && Possible(s, claim)
    ensures SlotsIncrease(Apply(s, claim))
  {
  }

  lemma SlotsIncreaseEdit(s: State, edit: Step)
    requires SlotsIncrease(s) && edit.Edit? && Possible(s, edit) && StaysAhead(s, edit)
    ensures SlotsIncrease(Apply(s, edit))
  {
  }

  lemma SlotsIncreaseStep(s: State, step: Step)
    requires SlotsIncrease(s) && Possible(s, step) && StaysAhead(s, step)
    ensures SlotsIncrease(Apply(s, step))
  {
    if step.TryClaim? {
      SlotsIncreaseClaim(s, step);
    } else if step.Edit? {
      SlotsIncreaseEdit(s, step);
    }
  }

  lemma {:induction false} SlotsIncreaseRun(s: State, steps: seq<Step>)
    requires SlotsIncrease(s) && IsRun(s, steps) && EditsStayAhead(s, steps)
    ensures SlotsIncrease(After(s, steps))
    decreases |steps|
  {
    if steps != [] {
      SlotsIncreaseStep(s, steps[0]);
      SlotsIncreaseRun(Apply(s, steps[0]), steps[1..]);
    }
  }

  /** In every interleaving of any number of instances, restarts included, each slot of a user is
      claimed at most once, as long as no edit puts a row back to a slot already claimed or before. */
  lemma EverySlotClaimedAtMostOnce(s: State, steps: seq<Step>)
    requires Initial(s) && IsRun(s, steps) && EditsStayAhead(s, steps)
    ensures ClaimedOnce(After(s, steps).claims)
  {
    SlotsIncreaseRun(s, steps);
  }

  lemma OneStepFirst(s: State, step: Step, rest: seq<Step>)
    requires Possible(s, step) && IsRun(Apply(s, step), rest)
    ensures IsRun(s, [step] + rest) && After(s, [step] + rest) == After(Apply(s, step), rest)
  {
    assert ([step] + rest)[0] == step && ([step] + rest)[1..] == rest;
  }

  /** Whatever happens next, as long as edits stay ahead, no slot is claimed twice. */
  ghost predicate NeverReclaims(s: State) {
    forall steps: seq<Step> :: IsRun(s, steps) && EditsStayAhead(s, steps) ==> ClaimedOnce(After(s, steps).claims)
  }

  predicate NoEdits(steps: seq<Step>) {
    forall k :: 0 <= k < |steps| ==> !steps[k].Edit?
  }

  lemma {:induction false} NoEditsStayAhead(s: State, steps: seq<Step>)
    requires IsRun(s, steps) && NoEdits(steps)
    ensures EditsStayAhead(s, steps)
    decreases |steps|
  {
    if steps != [] {
      NoEditsStayAhead(Apply(s, steps[0]), steps[1..]);
    }
  }

  lemma {:induction false} RunConcat(s: State, a: seq<Step>, b: seq<Step>)
    requires IsRun(s, a) && IsRun(After(s, a), b)
    ensures IsRun(s, a + b) && After(s, a + b) == After(After(s, a), b)
    decreases |a|
  {
    if a == [] {
      assert a + b == b;
    } else {
      RunConcat(Apply(s, a[0]), a[1..], b);
      OneStepFirst(s, a[0], a[1..] + b);
      assert [a[0]] + (a[1..] + b) == a + b;
    }
  }

  /** The row shows the user's slot as due whenever the clock says so. */
  predicate Shows(s: State, user: User, slot: int) {
    user in s.table && s.table[user] == Row(true, Some(slot))
  }

  /** Any instance, restarted, can claim the slot a row shows and move the row to any later time. */
  lemma ClaimShown(s: State, user: User, slot: int, next: int) returns (steps: seq<Step>)
    requires Shows(s, user, slot) && slot < next
    ensures IsRun(s, steps) && NoEdits(steps)
    ensures Shows(After(s, steps), user, next)
    ensures After(s, steps).claims == s.claims + [Claim(user, slot, slot, next)]
  {
    var restart, tick, claim := Restart(0), BeginTick(0, slot, [Due(user, slot)]), TryClaim(0, next);
    var s1 := Apply(s, restart);
    assert Possible(s1, tick);
    var s2 := Apply(s1, tick);
    OneStepFirst(s2, claim, []);
    OneStepFirst(s1, tick, [claim] + []);
    OneStepFirst(s, restart, [tick] + ([claim] + []));
    steps := [restart] + ([tick] + ([claim] + []));
  }

  /** A row put back to a claimed slot, or before it, lets that slot be claimed again. */
  lemma BehindReclaims(s: State, user: User, slot: int, c: nat) returns (steps: seq<Step>)
    requires Shows(s, user, slot) && c < |s.claims| && s.claims[c].user == user && slot <= s.claims[c].slot
    ensures IsRun(s, steps) && NoEdits(steps) && !ClaimedOnce(After(s, steps).claims)
  {
    var claimed := s.claims[c].slot;
    if slot == claimed {
      steps := ClaimShown(s, user, slot, slot + 1);
      TwiceClaimed(s.claims, After(s, steps).claims, c, |s.claims|);
    } else {
      var first := ClaimShown(s, user, slot, claimed);
      var s1 := After(s, first);
      var second := ClaimShown(s1, user, claimed, claimed + 1);
      RunConcat(s, first, second);
      steps := first + second;
      assert s1.claims[c] == s.claims[c];
      TwiceClaimed(s1.claims, After(s1, second).claims, c, |s1.claims|);
    }
  }

  lemma TwiceClaimed(before: seq<Claim>, after: seq<Claim>, c: nat, d: nat)
    requires c < |before| && d == |before| && |after| == d + 1 && before == after[..d]
    requires after[d].user == before[c].user && after[d].slot == before[c].slot
    ensures !ClaimedOnce(after)
  {
    assert after[c] == before[c];
  }

  /** Which edits are safe, whatever instances and later edits that stay ahead do: exactly those that
      leave the row disabled or past every slot already claimed for the user. */
  lemma EditIsSafeIff(s: State, edit: Step)
    requires SlotsIncrease(s) && edit.Edit? && Possible(s, edit)
    ensures NeverReclaims(Apply(s, edit)) <==> StaysAhead(s, edit)
  {
    var s1 := Apply(s, edit);
    if StaysAhead(s, edit) {
      SlotsIncreaseStep(s, edit);
      forall steps: seq<Step> | IsRun(s1, steps) && EditsStayAhead(s1, steps)
        ensures ClaimedOnce(After(s1, steps).claims)
      {
        SlotsIncreaseRun(s1, steps);
      }
    } else {
      var c :| 0 <= c < |s.claims| && s.claims[c].user == edit.user && edit.next <= s.claims[c].slot;
      var steps := BehindReclaims(s1, edit.user, edit.next, c);
      NoEditsStayAhead(s1, steps);
    }
  }

  /** An edit stamped no earlier than the slots already claimed is safe, since it looks for the next
      occurrence after its own time. */
  lemma LateEditStaysAhead(s: State, edit: Step)
    requires edit.Edit? && Possible(s, edit)
    requires forall c :: 0 <= c < |s.claims| && s.claims[c].user == edit.user ==> s.claims[c].slot <= edit.clock
    ensures StaysAhead(s, edit)
  {
  }

  /** One stamped earlier than a claimed slot may not be: some such edit puts the row back on that
      slot, and it is claimed again. */
  lemma EarlierEditReclaims(s: State, c: nat, clock: int) returns (steps: seq<Step>)
    requires c < |s.claims| && clock < s.claims[c].slot
    ensures IsRun(s, steps) && steps != [] && steps[0].Edit? && steps[0].clock == clock && NoEdits(steps[1..])
    ensures !ClaimedOnce(After(s, steps).claims)
  {
    var edit := Edit(s.claims[c].user, clock, true, s.claims[c].slot);
    var rest := BehindReclaims(Apply(s, edit), edit.user, edit.next, c);
    OneStepFirst(s, edit, rest);
    steps := [edit] + rest;
    assert steps[1..] == rest;
  }

  // ---------- Who can win a claim ----------

  /** A claim is won exactly when the row still shows the scanned slot and is enabled; it is logged and
      moves the row to the next time, and nothing else changes; a lost one changes no row. */
  lemma ClaimWinsIff(s: State, claim: Step, user: User)
    requires claim.TryClaim? && Possible(s, claim)
    ensures var (d, s') := (s.PhaseOf(claim.i).due[0], Apply(s, claim));
      var wins := d.user in s.table && s.table[d.user].enabled && s.table[d.user].nextRunAt == Some(d.slot);
      && s'.claims == s.claims + (if wins then [Claim(d.user, d.slot, s.PhaseOf(claim.i).now, claim.next)] else [])
      && s'.table.Keys == s.table.Keys
      && (user in s.table ==>
            s'.table[user] == if wins && user == d.user then Row(true, Some(claim.next)) else s.table[user])
  {
  }

  predicate IsOff(s: State, user: User) {
    user !in s.table || !s.table[user].enabled
  }

  predicate EnablesOnly(steps: seq<Step>, user: User) {
    forall k :: 0 <= k < |steps| && steps[k].Edit? && steps[k].enabled ==> steps[k].user != user
  }

  /** While a user's schedule is off, no instance claims a slot of it, not even one scanned before it
      was switched off. */
  lemma {:induction false} NothingIsClaimedWhileOff(s: State, steps: seq<Step>, user: User)
    requires IsOff(s, user) && IsRun(s, steps) && EnablesOnly(steps, user)
    ensures IsOff(After(s, steps), user) && s.claims <= After(s, steps).claims
    ensures forall c :: |s.claims| <= c < |After(s, steps).claims| ==> After(s, steps).claims[c].user != user
    decreases |steps|
  {
    if steps != [] {
      var s1 := Apply(s, steps[0]);
      assert steps[0].Edit? && steps[0].enabled ==> steps[0].user != user;
      assert forall k :: 0 <= k < |steps[1..]| ==> steps[1..][k] == steps[k + 1];
      NothingIsClaimedWhileOff(s1, steps[1..], user);
    }
  }

  // ---------- Downtime yields exactly one claim ----------

  /** Without edits, a row moves only when it is claimed, and strictly past the claiming instant;
      and a scanned slot is still on its row or has been claimed. */
  ghost predicate ClaimsLeap(s: State) {
    && (forall c :: 0 <= c < |s.claims| ==> s.claims[c].slot <= s.claims[c].at < s.claims[c].next)
    && (forall a, b :: 0 <= a < b < |s.claims| && s.claims[a].user == s.claims[b].user ==>
          s.claims[a].next <= s.claims[b].slot)
    && (forall c :: 0 <= c < |s.claims| ==> RowIsPast(s.table, s.claims[c]))
    && (forall i, k :: i in s.instances && s.instances[i].Ticking? && 0 <= k < |s.instances[i].due| ==>
          ScannedOk(s, s.instances[i].due[k], s.instances[i].now))
  }

  predicate RowIsPast(table: map<User, Row>, c: Claim) {
    c.user in table && table[c.user].nextRunAt.Some? && c.next <= table[c.user].nextRunAt.value
  }

  ghost predicate ScannedOk(s: State, d: Due, now: int) {
    d.slot <= now && (RowIsDue(s.table, d, now) || IsClaimed(s.claims, d))
  }

  ghost predicate IsClaimed(claims: seq<Claim>, d: Due) {
    exists c :: 0 <= c < |claims| && claims[c].user == d.user && claims[c].slot == d.slot
  }

  lemma ClaimsLeapStep(s: State, step: Step)
    requires ClaimsLeap(s) && Possible(s, step) && !step.Edit?
    ensures ClaimsLeap(Apply(s, step))
    ensures step.TryClaim? ==> IsClaimed(Apply(s, step).claims, s.PhaseOf(step.i).due[0])
  {
    var s' := Apply(s, step);
    forall d: Due, now: int | ScannedOk(s, d, now) ensures ScannedOk(s', d, now) {
      ScannedStays(s, step, d, now);
    }
    if step.TryClaim? {
      var t := s.PhaseOf(step.i);
      assert ScannedOk(s, t.due[0], t.now);
      if ClaimRow(s.table, t.due[0], step.next).1 {
        assert s'.claims[|s.claims|] == Claim(t.due[0].user, t.due[0].slot, t.now, step.next);
      }
    }
  }

  lemma ScannedStays(s: State, step: Step, d: Due, now: int)
    requires Possible(s, step) && !step.Edit? && ScannedOk(s, d, now)
    ensures ScannedOk(Apply(s, step), d, now)
  {
    var s' := Apply(s, step);
    if IsClaimed(s.claims, d) {
      var c :| 0 <= c < |s.claims| && s.claims[c].user == d.user && s.claims[c].slot == d.slot;
      assert s'.claims[c] == s.claims[c];
    } else if step.TryClaim? && ClaimRow(s.table, s.PhaseOf(step.i).due[0], step.next).1
           && s.PhaseOf(step.i).due[0].user == d.user {
      assert s'.claims[|s.claims|].user == d.user && s'.claims[|s.claims|].slot == d.slot;
    }
  }

  lemma {:induction false} ClaimsLeapRun(s: State, steps: seq<Step>)
    requires ClaimsLeap(s) && IsRun(s, steps) && NoEdits(steps)
    ensures ClaimsLeap(After(s, steps))
    ensures s.claims <= After(s, steps).claims
    decreases |steps|
  {
    if steps != [] {
      assert !steps[0].Edit?;
      ClaimsLeapStep(s, steps[0]);
      assert forall k :: 0 <= k < |steps[1..]| ==> steps[1..][k] == steps[k + 1];
      ClaimsLeapRun(Apply(s, steps[0]), steps[1..]);
    }
  }

  /** Whatever slots were missed before a claim, the claim stands for all of them: no other claim
      of the user, earlier or later, has a slot between the claimed slot and the instant it was
      claimed at. */
  lemma MissedSlotsAreNeverClaimed(s: State, steps: seq<Step>, a: nat, b: nat)
    requires Initial(s) && IsRun(s, steps) && NoEdits(steps)
    requires a < |After(s, steps).claims| && b < |After(s, steps).claims| && a != b
    requires After(s, steps).claims[a].user == After(s, steps).claims[b].user
    ensures var claims := After(s, steps).claims;
      !(claims[a].slot <= claims[b].slot <= claims[a].at)
  {
    ClaimsLeapRun(s, steps);
  }

  ghost predicate ExactlyOneClaim(claims: seq<Claim>, d: Due) {
    exists c :: 0 <= c < |claims| && claims[c].user == d.user && claims[c].slot == d.slot
      && forall b :: 0 <= b < |claims| && claims[b].user == d.user && claims[b].slot == d.slot ==> b == c
  }

  /** Once some instance has tried to claim a scanned slot, that slot has exactly one claim, whoever
      won it, and keeps exactly one for the rest of the run. */
  lemma TriedSlotIsClaimedExactlyOnce(s: State, steps: seq<Step>, try: Step, more: seq<Step>)
    requires Initial(s) && IsRun(s, steps) && NoEdits(steps)
    requires try.TryClaim? && Possible(After(s, steps), try)
    requires IsRun(Apply(After(s, steps), try), more) && NoEdits(more)
    ensures ExactlyOneClaim(After(Apply(After(s, steps), try), more).claims, After(s, steps).PhaseOf(try.i).due[0])
  {
    ClaimsLeapRun(s, steps);
    var s1 := After(s, steps);
    var d := s1.PhaseOf(try.i).due[0];
    ClaimsLeapStep(s1, try);
    var s2 := Apply(s1, try);
    ClaimsLeapRun(s2, more);
    var c :| 0 <= c < |s2.claims| && s2.claims[c].user == d.user && s2.claims[c].slot == d.slot;
    var final := After(s2, more).claims;
    assert final[c] == s2.claims[c];
    forall b | 0 <= b < |final| && final[b].user == d.user && final[b].slot == d.slot ensures b == c {
      SlotHasOneClaim(After(s2, more), b, c);
    }
  }

  lemma SlotHasOneClaim(s: State, a: nat, b: nat)
    requires ClaimsLeap(s) && a < |s.claims| && b < |s.claims|
    requires s.claims[a].user == s.claims[b].user && s.claims[a].slot == s.claims[b].slot
    ensures a == b
  {
  }
}
