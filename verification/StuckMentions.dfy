// Every mention a correction re-opens is settled again: it is in the running pass's snapshot, or a
// resolve task is queued or still owed for its episode, exactly as long as the tasks queued and owed
// have room for the pending mentions that no snapshot holds.
module StuckMentions {
  import opened Common
  import opened EntityCorrection

  /** Pending mentions that no running pass has in its snapshot. */
  function Uncovered(s: State, ep: Episode): set<MentionId> {
    set m | m in s.mentions && s.mentions[m].episode == ep && s.mentions[m].status.Pending?
            && !(ep in s.passes && m in s.passes[ep].todo)
  }

  /** Corrections that reset mentions of the episode and have not yet enqueued its task. */
  function Owing(s: State, ep: Episode): set<CorrectionId> {
    set c | c in s.corrections && s.corrections[c].phase.Enqueuing? && ep in s.corrections[c].phase.owed
  }

  /** How many mentions the tasks queued or owed for an episode can still take up. */
  function Room(s: State, ep: Episode): nat {
    LIMIT * (Queued(s, ep) + |Owing(s, ep)|)
  }

  ghost predicate Covered(s: State, ep: Episode) {
    |Uncovered(s, ep)| <= Room(s, ep)
  }

  function IdsIn(s: State, c: CorrectionId, ep: Episode): set<MentionId>
    requires c in s.corrections && !s.corrections[c].phase.Stored?
  {
    set m | m in s.corrections[c].phase.ids && m in s.mentions && s.mentions[m].episode == ep
  }

  /** What the running pass has still to write. */
  function Todo(s: State, ep: Episode): set<MentionId> {
    if ep in s.passes then s.passes[ep].todo else {}
  }

  /** The tasks queued and owed, with the one the correction is about to owe, have room for the
      mentions that will be uncovered once it has reset its own. */
  predicate ResetFits(s: State, c: CorrectionId, ep: Episode)
    requires Enabled(s, Reset(c))
  {
    var ids := IdsIn(s, c, ep);
    |Uncovered(s, ep) + (ids - Todo(s, ep))| <=
      LIMIT * (Queued(s, ep) + |Owing(s, ep)| + if ids == {} then 0 else 1)
  }

  ghost predicate Fits(s: State, a: Action, ep: Episode) {
    Enabled(s, a) && a.Reset? ==> ResetFits(s, a.c, ep)
  }

  ghost predicate AllFit(s: State, actions: seq<Action>, ep: Episode)
    requires AllEnabled(s, actions)
    decreases |actions|
  {
    actions == [] || (Fits(s, actions[0], ep) && AllFit(Step(s, actions[0]), actions[1..], ep))
  }

  lemma UnionSize<T>(a: set<T>, b: set<T>, c: set<T>)
    requires a <= b + c
    ensures |a| <= |b| + |c|
  {
    SubsetSize(a, b + c);
    assert |b + c| == |b| + |c| - |b * c|;
  }

  lemma ResetOwes(s: State, c: CorrectionId, ep: Episode)
    requires Enabled(s, Reset(c))
    ensures Owing(Step(s, Reset(c)), ep) == Owing(s, ep) + (if IdsIn(s, c, ep) == {} then {} else {c})
    ensures c !in Owing(s, ep)
  {
    var s' := Step(s, Reset(c));
    assert ep in s'.corrections[c].phase.owed <==> IdsIn(s, c, ep) != {} by {
      if ep in EpisodesOf(s, s.corrections[c].phase.ids) {
        var m :| m in s.corrections[c].phase.ids && m in s.mentions && s.mentions[m].episode == ep;
        assert m in IdsIn(s, c, ep);
      }
      if m :| m in IdsIn(s, c, ep) {
        assert s.mentions[m].episode in EpisodesOf(s, s.corrections[c].phase.ids);
      }
    }
  }

  lemma ResetUncovers(s: State, c: CorrectionId, ep: Episode)
    requires Inv(s) && Enabled(s, Reset(c))
    ensures Uncovered(Step(s, Reset(c)), ep) == Uncovered(s, ep) + (IdsIn(s, c, ep) - Todo(s, ep))
  {
  }

  /** After the reset the episode is covered exactly when the reset fits. */
  lemma ResetCoversIff(s: State, c: CorrectionId, ep: Episode)
    requires Inv(s) && Enabled(s, Reset(c))
    ensures Covered(Step(s, Reset(c)), ep) <==> ResetFits(s, c, ep)
  {
    ResetOwes(s, c, ep);
    ResetUncovers(s, c, ep);
    assert Queued(Step(s, Reset(c)), ep) == Queued(s, ep);
  }

  /** In a covered episode, a reset of at most LIMIT mentions always fits. */
  lemma SmallResetFits(s: State, c: CorrectionId, ep: Episode)
    requires Enabled(s, Reset(c)) && Covered(s, ep) && |IdsIn(s, c, ep)| <= LIMIT
    ensures ResetFits(s, c, ep)
  {
    var ids := IdsIn(s, c, ep);
    UnionSize(Uncovered(s, ep) + (ids - Todo(s, ep)), Uncovered(s, ep), ids);
  }

  lemma EnqueuePays(s: State, c: CorrectionId, ep: Episode)
    requires Enabled(s, Enqueue(c, ep))
    ensures Owing(Step(s, Enqueue(c, ep)), ep) == Owing(s, ep) - {c} && c in Owing(s, ep)
    ensures forall e :: e != ep ==> Owing(Step(s, Enqueue(c, ep)), e) == Owing(s, e)
  {
  }

  lemma OwingUnchanged(s: State, a: Action, ep: Episode)
    requires Enabled(s, a) && !a.Reset? && !a.Enqueue?
    ensures Owing(Step(s, a), ep) == Owing(s, ep)
  {
  }

  /** A pass takes up as many pending mentions as the limit lets it. */
  lemma StartTakes(s: State, ep: Episode, snapshot: set<MentionId>)
    requires Enabled(s, Start(ep, snapshot))
    ensures Uncovered(Step(s, Start(ep, snapshot)), ep) == Uncovered(s, ep) - snapshot
    ensures |Uncovered(Step(s, Start(ep, snapshot)), ep)| == |Uncovered(s, ep)| - Min(LIMIT, |Uncovered(s, ep)|)
  {
    assert Uncovered(s, ep) == PendingOf(s, ep);
    assert |PendingOf(s, ep) - snapshot| == |PendingOf(s, ep)| - |snapshot|;
  }

  lemma FailReturns(s: State, ep: Episode)
    requires Inv(s) && Enabled(s, Fail(ep))
    ensures Uncovered(Step(s, Fail(ep)), ep) <= Uncovered(s, ep) + s.passes[ep].todo
  {
  }

  predicate Concerns(a: Action, ep: Episode) {
    match a
    case Reset(_) => true
    case Start(e, _) => e == ep
    case Fail(e) => e == ep
    case _ => false
  }

  lemma WriteKeepsUncovered(s: State, e: Episode, m: MentionId, kind: Kind, ep: Episode)
    requires Inv(s) && Enabled(s, Write(e, m, kind))
    ensures Uncovered(Step(s, Write(e, m, kind)), ep) == Uncovered(s, ep)
  {
    assert PassOk(s, e, s.passes[e]);
  }

  lemma CorefWriteShrinks(s: State, e: Episode, m: MentionId, kind: Kind, ep: Episode)
    requires Enabled(s, CorefWrite(e, m, kind))
    ensures Uncovered(Step(s, CorefWrite(e, m, kind)), ep) <= Uncovered(s, ep)
  {
  }

  lemma OtherKeepsUncovered(s: State, a: Action, ep: Episode)
    requires Enabled(s, a) && !a.Write? && !a.CorefWrite? && !Concerns(a, ep)
    ensures Uncovered(Step(s, a), ep) == Uncovered(s, ep)
  {
  }

  /** Every other step leaves the uncovered mentions, or settles some of them. */
  lemma UncoveredShrinks(s: State, a: Action, ep: Episode)
    requires Inv(s) && Enabled(s, a) && !Concerns(a, ep)
    ensures Uncovered(Step(s, a), ep) <= Uncovered(s, ep)
  {
    if a.Write? {
      WriteKeepsUncovered(s, a.ep, a.m, a.kind, ep);
    } else if a.CorefWrite? {
      CorefWriteShrinks(s, a.ep, a.m, a.kind, ep);
    } else {
      OtherKeepsUncovered(s, a, ep);
    }
  }

  lemma CoveredFail(s: State, ep: Episode)
    requires Inv(s) && Enabled(s, Fail(ep)) && Covered(s, ep)
    ensures Covered(Step(s, Fail(ep)), ep)
  {
    OwingUnchanged(s, Fail(ep), ep);
    FailReturns(s, ep);
    assert PassOk(s, ep, s.passes[ep]);
    UnionSize(Uncovered(Step(s, Fail(ep)), ep), Uncovered(s, ep), s.passes[ep].todo);
  }

  /** A step of another kind does not shrink the room. */
  lemma RoomKept(s: State, a: Action, ep: Episode)
    requires Enabled(s, a) && !Concerns(a, ep)
    ensures Room(Step(s, a), ep) == Room(s, ep)
  {
    if a.Enqueue? {
      EnqueuePays(s, a.c, a.ep);
    } else {
      OwingUnchanged(s, a, ep);
    }
  }

  lemma CoveredStep(s: State, a: Action, ep: Episode)
    requires Inv(s) && Enabled(s, a) && Fits(s, a, ep) && Covered(s, ep)
    ensures Covered(Step(s, a), ep)
  {
    if !Concerns(a, ep) {
      RoomKept(s, a, ep);
      UncoveredShrinks(s, a, ep);
      SubsetSize(Uncovered(Step(s, a), ep), Uncovered(s, ep));
    } else if a.Reset? {
      ResetCoversIff(s, a.c, ep);
    } else if a.Start? {
      OwingUnchanged(s, a, ep);
      StartTakes(s, a.ep, a.snapshot);
    } else {
      CoveredFail(s, ep);
    }
  }

  /** A pending mention is in the running pass's snapshot, or a task for its episode is queued, or
      a correction still owes one. */
  ghost predicate NoneStuck(s: State, ep: Episode) {
    forall m :: m in PendingOf(s, ep) ==>
      || (ep in s.passes && m in s.passes[ep].todo)
      || Queued(s, ep) > 0
      || Owing(s, ep) != {}
  }

  lemma CoveredMeansNoneStuck(s: State, ep: Episode)
    requires Covered(s, ep)
    ensures NoneStuck(s, ep)
  {
    forall m | m in PendingOf(s, ep) && !(ep in s.passes && m in s.passes[ep].todo)
      ensures Queued(s, ep) > 0 || Owing(s, ep) != {}
    {
      SubsetSize({m}, Uncovered(s, ep));
    }
  }

  /** As long as every reset fits, no mention is stuck, in any interleaving. */
  lemma {:induction false} NoMentionIsStuck(s: State, actions: seq<Action>, ep: Episode)
    requires Inv(s) && Covered(s, ep) && AllEnabled(s, actions) && AllFit(s, actions, ep)
    ensures Covered(Run(s, actions), ep) && NoneStuck(Run(s, actions), ep)
    decreases |actions|
  {
    if actions == [] {
      CoveredMeansNoneStuck(s, ep);
    } else {
      InvStep(s, actions[0]);
      CoveredStep(s, actions[0], ep);
      NoMentionIsStuck(Step(s, actions[0]), actions[1..], ep);
    }
  }

  /** Before any correction or pass, with every pending mention covered by the queue. */
  ghost predicate Init(s: State) {
    s.corrections == map[] && s.passes == map[] && forall ep :: Covered(s, ep)
  }

  /** From a fresh start, in any interleaving of fitting corrections and passes. */
  lemma ReachableStates(s: State, actions: seq<Action>)
    requires Init(s) && AllEnabled(s, actions) && forall ep :: AllFit(s, actions, ep)
    ensures Inv(Run(s, actions)) && forall ep :: NoneStuck(Run(s, actions), ep)
  {
    InvRun(s, actions);
    forall ep ensures NoneStuck(Run(s, actions), ep) {
      NoMentionIsStuck(s, actions, ep);
    }
  }

  /** Steps that neither re-open mentions nor overwrite pending ones. */
  predicate IsPassWork(a: Action) {
    !a.Reset? && !a.Fail? && !a.CorefWrite?
  }

  lemma ExcessStep(s: State, a: Action, ep: Episode)
    requires Inv(s) && Enabled(s, a) && IsPassWork(a)
    ensures |Uncovered(Step(s, a), ep)| - Room(Step(s, a), ep) >= |Uncovered(s, ep)| - Room(s, ep)
  {
    if Concerns(a, ep) {
      OwingUnchanged(s, a, ep);
      StartTakes(s, ep, a.snapshot);
    } else {
      RoomKept(s, a, ep);
      if a.Write? {
        WriteKeepsUncovered(s, a.ep, a.m, a.kind, ep);
      } else {
        OtherKeepsUncovered(s, a, ep);
      }
    }
  }

  ghost predicate AllPassWork(actions: seq<Action>) {
    forall k :: 0 <= k < |actions| ==> IsPassWork(actions[k])
  }

  /** Mentions beyond the room stay uncovered, whatever the passes do from there on. */
  lemma {:induction false} ExcessStays(s: State, actions: seq<Action>, ep: Episode)
    requires Inv(s) && AllEnabled(s, actions) && AllPassWork(actions)
    ensures |Uncovered(Run(s, actions), ep)| - Room(Run(s, actions), ep) >= |Uncovered(s, ep)| - Room(s, ep)
    decreases |actions|
  {
    if actions != [] {
      InvStep(s, actions[0]);
      ExcessStep(s, actions[0], ep);
      ExcessStays(Step(s, actions[0]), actions[1..], ep);
    }
  }

  // ---------- Exactly when no mention is ever stuck ----------

  /** Whatever passes do from here on, no mention is stuck. */
  ghost predicate PassesNeverStick(s: State, ep: Episode) {
    forall actions: seq<Action> :: AllEnabled(s, actions) && AllPassWork(actions) ==> NoneStuck(Run(s, actions), ep)
  }

  /** The same with further corrections, failures and coreference, as long as every reset fits its
      own moment. */
  ghost predicate NeverStuck(s: State, ep: Episode) {
    forall actions: seq<Action> :: AllEnabled(s, actions) && AllFit(s, actions, ep) ==> NoneStuck(Run(s, actions), ep)
  }

  /** At any moment: no mention of the episode will ever be stuck, whatever passes, failures,
      coreference and further fitting corrections follow, if and only if the tasks queued and owed
      have room for the pending mentions that no snapshot holds. */
  lemma NeverStuckIff(s: State, ep: Episode)
    requires Inv(s)
    ensures NeverStuck(s, ep) <==> Covered(s, ep)
    ensures PassesNeverStick(s, ep) <==> Covered(s, ep)
  {
    if Covered(s, ep) {
      CoveredNeverSticks(s, ep);
    } else {
      var actions := UncoveredStrandsSome(s, ep);
      PassWorkFits(s, actions, ep);
    }
  }

  /** A correction, with a pass running or not, tasks queued or not, leaves no mention stuck for ever
      after if and only if its reset fits. */
  lemma CorrectionNeverStrandsIff(s: State, c: CorrectionId, ep: Episode)
    requires Inv(s) && Enabled(s, Reset(c))
    ensures NeverStuck(Step(s, Reset(c)), ep) <==> ResetFits(s, c, ep)
    ensures PassesNeverStick(Step(s, Reset(c)), ep) <==> ResetFits(s, c, ep)
  {
    InvStep(s, Reset(c));
    ResetCoversIff(s, c, ep);
    NeverStuckIff(Step(s, Reset(c)), ep);
  }

  /** In a quiet episode, with no pass, no task and nothing uncovered, that is at most LIMIT mentions.
      Past that, some mention stays uncovered through all pass work. */
  lemma OneTaskSufficesIff(s: State, c: CorrectionId, ep: Episode)
    requires Inv(s) && Enabled(s, Reset(c)) && ep !in s.passes
    requires Uncovered(s, ep) == {} && Room(s, ep) == 0 && IdsIn(s, c, ep) != {}
    ensures PassesNeverStick(Step(s, Reset(c)), ep) <==> |IdsIn(s, c, ep)| <= LIMIT
    ensures NeverStuck(Step(s, Reset(c)), ep) <==> |IdsIn(s, c, ep)| <= LIMIT
    ensures Covered(Step(s, Reset(c)), ep) <==> |IdsIn(s, c, ep)| <= LIMIT
    ensures |IdsIn(s, c, ep)| > LIMIT ==>
      forall actions: seq<Action> :: AllEnabled(Step(s, Reset(c)), actions) && AllPassWork(actions) ==>
        Uncovered(Run(Step(s, Reset(c)), actions), ep) != {}
  {
    CorrectionNeverStrandsIff(s, c, ep);
    ResetCoversIff(s, c, ep);
    QuietResetFits(s, c, ep);
    if |IdsIn(s, c, ep)| > LIMIT {
      InvStep(s, Reset(c));
      ExcessAlways(Step(s, Reset(c)), ep);
    }
  }

  // ---------- What the passes make of room and excess ----------

  lemma {:induction false} LeastId(ids: set<MentionId>) returns (least: MentionId)
    requires ids != {}
    ensures least in ids && forall id :: id in ids ==> least <= id
    decreases |ids|
  {
    var some :| some in ids;
    var smaller := set id | id in ids && id < some;
    if smaller == {} {
      least := some;
      forall id | id in ids ensures least <= id {
        assert id !in smaller;
      }
    } else {
      assert some !in smaller;
      StrictSubsetSize(smaller, ids);
      least := LeastId(smaller);
      forall id | id in ids ensures least <= id {
        assert id in smaller || id >= some;
      }
    }
  }

  lemma StrictSubsetSize<T>(a: set<T>, b: set<T>)
    requires a < b
    ensures |a| < |b|
  {
    assert b == a + (b - a);
  }

  /** Every snapshot query has an answer. */
  lemma {:induction false} FirstIds(pending: set<MentionId>, limit: nat) returns (first: set<MentionId>)
    ensures first <= pending && |first| == Min(limit, |pending|)
    ensures forall a, b :: a in first && b in pending && b !in first ==> a < b
    decreases |pending|
  {
    first := {};
    if limit > 0 && pending != {} {
      var least := LeastId(pending);
      var others := FirstIds(pending - {least}, limit - 1);
      first := others + {least};
    }
  }

  lemma {:induction false} PassWorkFits(s: State, actions: seq<Action>, ep: Episode)
    requires AllEnabled(s, actions) && AllPassWork(actions)
    ensures AllFit(s, actions, ep)
    decreases |actions|
  {
    if actions != [] {
      PassWorkFits(Step(s, actions[0]), actions[1..], ep);
    }
  }

  lemma {:induction false} OwingUnchangedRun(s: State, actions: seq<Action>, ep: Episode)
    requires AllEnabled(s, actions) && AllWrites(actions)
    ensures Owing(Run(s, actions), ep) == Owing(s, ep)
    decreases |actions|
  {
    if actions != [] {
      OwingUnchanged(s, actions[0], ep);
      OwingUnchangedRun(Step(s, actions[0]), actions[1..], ep);
    }
  }

  /** A running pass writes what it holds and ends. */
  lemma PassEnds(s: State, ep: Episode) returns (actions: seq<Action>)
    requires Inv(s) && ep in s.passes
    ensures AllEnabled(s, actions) && AllPassWork(actions)
    ensures var after := Run(s, actions);
      ep !in after.passes && Queued(after, ep) == Queued(s, ep) && Owing(after, ep) == Owing(s, ep)
  {
    var drained := Drain(s, ep);
    OwingUnchangedRun(s, drained, ep);
    var s1 := Run(s, drained);
    var finish := Finish(ep);
    RunOne(s1, finish);
    OwingUnchanged(s1, finish, ep);
    actions := drained + [finish];
    RunConcat(s, drained, [finish]);
  }

  /** A queued task starts its pass on what one snapshot holds. */
  lemma TaskStarts(s: State, ep: Episode) returns (actions: seq<Action>)
    requires Inv(s) && ep !in s.passes && Queued(s, ep) > 0
    ensures AllEnabled(s, actions) && AllPassWork(actions)
    ensures Queued(Run(s, actions), ep) == Queued(s, ep) - 1 && Owing(Run(s, actions), ep) == Owing(s, ep)
  {
    var snapshot := FirstIds(PendingOf(s, ep), LIMIT);
    var start := Start(ep, snapshot);
    OwingUnchanged(s, start, ep);
    RunOne(s, start);
    actions := [start];
  }

  /** A correction that owes a task enqueues it. */
  lemma DebtIsPaid(s: State, c: CorrectionId, ep: Episode) returns (actions: seq<Action>)
    requires Inv(s) && c in Owing(s, ep)
    ensures AllEnabled(s, actions) && AllPassWork(actions)
    ensures Owing(Run(s, actions), ep) == Owing(s, ep) - {c}
  {
    var enqueue := Enqueue(c, ep);
    EnqueuePays(s, c, ep);
    RunOne(s, enqueue);
    actions := [enqueue];
  }

  /** One stage of using the room up: the running pass ends, or else a queued task starts, or else
      an owed one is enqueued. */
  lemma NextStage(s: State, ep: Episode) returns (actions: seq<Action>)
    requires Inv(s) && (ep in s.passes || Queued(s, ep) > 0 || Owing(s, ep) != {})
    ensures AllEnabled(s, actions) && AllPassWork(actions)
    ensures var after := Run(s, actions);
      || |Owing(after, ep)| < |Owing(s, ep)|
      || (Owing(after, ep) == Owing(s, ep) && Queued(after, ep) < Queued(s, ep))
      || (Owing(after, ep) == Owing(s, ep) && Queued(after, ep) == Queued(s, ep)
          && ep in s.passes && ep !in after.passes)
  {
    if ep in s.passes {
      actions := PassEnds(s, ep);
    } else if Queued(s, ep) > 0 {
      actions := TaskStarts(s, ep);
    } else {
      var c :| c in Owing(s, ep);
      actions := DebtIsPaid(s, c, ep);
    }
  }

  /** From any state where the tasks queued and owed lack room, the passes, run to their end, leave a
      mention stuck. */
  lemma {:induction false} UncoveredStrandsSome(s: State, ep: Episode) returns (actions: seq<Action>)
    requires Inv(s) && !Covered(s, ep)
    ensures AllEnabled(s, actions) && AllPassWork(actions) && !NoneStuck(Run(s, actions), ep)
    decreases |Owing(s, ep)|, Queued(s, ep), if ep in s.passes then 1 else 0
  {
    if ep in s.passes || Queued(s, ep) > 0 || Owing(s, ep) != {} {
      var stage := NextStage(s, ep);
      InvRun(s, stage);
      ExcessStays(s, stage, ep);
      var rest := UncoveredStrandsSome(Run(s, stage), ep);
      RunConcat(s, stage, rest);
      actions := stage + rest;
    } else {
      actions := [];
      var m :| m in Uncovered(s, ep);
      assert m in PendingOf(s, ep);
    }
  }

  lemma QuietResetFits(s: State, c: CorrectionId, ep: Episode)
    requires Enabled(s, Reset(c)) && ep !in s.passes
    requires Uncovered(s, ep) == {} && Room(s, ep) == 0 && IdsIn(s, c, ep) != {}
    ensures ResetFits(s, c, ep) <==> |IdsIn(s, c, ep)| <= LIMIT
  {
    assert Uncovered(s, ep) + (IdsIn(s, c, ep) - Todo(s, ep)) == IdsIn(s, c, ep);
  }

  lemma CoveredNeverSticks(s: State, ep: Episode)
    requires Inv(s) && Covered(s, ep)
    ensures NeverStuck(s, ep) && PassesNeverStick(s, ep)
  {
    forall actions: seq<Action> | AllEnabled(s, actions) && AllFit(s, actions, ep)
      ensures NoneStuck(Run(s, actions), ep)
    {
      NoMentionIsStuck(s, actions, ep);
    }
    forall actions: seq<Action> | AllEnabled(s, actions) && AllPassWork(actions)
      ensures NoneStuck(Run(s, actions), ep)
    {
      PassWorkFits(s, actions, ep);
    }
  }

  lemma ExcessAlways(s: State, ep: Episode)
    requires Inv(s) && |Uncovered(s, ep)| > Room(s, ep)
    ensures forall actions: seq<Action> :: AllEnabled(s, actions) && AllPassWork(actions) ==>
      Uncovered(Run(s, actions), ep) != {}
  {
    forall actions: seq<Action> | AllEnabled(s, actions) && AllPassWork(actions)
      ensures Uncovered(Run(s, actions), ep) != {}
    {
      ExcessStays(s, actions, ep);
    }
  }
}
