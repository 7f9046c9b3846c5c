// A dropped mention is a person's decision. Corrections pass over it, and so do resolve passes and
// coreference, except that a correction which found the mention before it was dropped may still
// reset it.
module DroppedMentions {
  import opened Common
  import opened EntityCorrection

  predicate IsDropped(s: State, m: MentionId) {
    m in s.mentions && s.mentions[m].status.Settled? && s.mentions[m].status.kind == Dropped
  }

  /** What coreference still has to write are people, and none of them was dropped. */
  ghost predicate CorefOk(s: State) {
    forall ep, m :: ep in s.passes && s.passes[ep].coref.Some? && m in s.passes[ep].coref.value ==>
      m in s.mentions && s.mentions[m].personLike && !IsDropped(s, m)
  }

  /** Coreference lists exactly the episode's unresolvable people. */
  lemma CorefReadLists(s: State, ep: Episode, m: MentionId)
    requires Enabled(s, CorefRead(ep))
    ensures m in Step(s, CorefRead(ep)).passes[ep].coref.value <==>
      && m in s.mentions && s.mentions[m].episode == ep && s.mentions[m].personLike
      && s.mentions[m].status.Settled? && s.mentions[m].status.kind == Unresolvable
  {
  }

  /** A mention that coreference still has to write is not dropped by the step: only a write from a
      snapshot drops one, and the pass's snapshot is used up. */
  lemma KeepsListed(s: State, a: Action, ep: Episode, m: MentionId)
    requires Inv(s) && CorefOk(s) && Enabled(s, a) && ep in s.passes
    requires s.passes[ep].coref.Some? && m in s.passes[ep].coref.value
    ensures var s' := Step(s, a);
      m in s'.mentions && s'.mentions[m].personLike && !IsDropped(s', m)
  {
    assert PassOk(s, ep, s.passes[ep]);
    if a.Write? {
      assert PassOk(s, a.ep, s.passes[a.ep]);
    }
    KeepsMentions(s, a, m);
  }

  lemma KeepsCoref(s: State, a: Action)
    requires Inv(s) && CorefOk(s) && Enabled(s, a)
    ensures CorefOk(Step(s, a))
  {
    var s' := Step(s, a);
    forall ep, m | ep in s'.passes && s'.passes[ep].coref.Some? && m in s'.passes[ep].coref.value
      ensures m in s'.mentions && s'.mentions[m].personLike && !IsDropped(s', m)
    {
      if a == CorefRead(ep) {
        CorefReadLists(s, ep, m);
      } else {
        KeepsListed(s, a, ep, m);
      }
    }
  }

  lemma {:induction false} CorefOkRun(s: State, actions: seq<Action>)
    requires Inv(s) && CorefOk(s) && AllEnabled(s, actions)
    ensures CorefOk(Run(s, actions))
    decreases |actions|
  {
    if actions != [] {
      KeepsCoref(s, actions[0]);
      InvStep(s, actions[0]);
      CorefOkRun(Step(s, actions[0]), actions[1..]);
    }
  }

  /** In any run coreference settles people only, as resolved or ambiguous. */
  lemma CorefSettlesPeople(s: State, actions: seq<Action>, ep: Episode, m: MentionId, kind: Kind)
    requires Inv(s) && CorefOk(s) && AllEnabled(s, actions) && Enabled(Run(s, actions), CorefWrite(ep, m, kind))
    ensures var s' := Run(s, actions);
      && m in s'.mentions && s'.mentions[m].personLike && !IsDropped(s', m)
      && (kind == Resolved || kind == Ambiguous)
  {
    CorefOkRun(s, actions);
  }

  /** A correction has found the mention and is about to reset it. */
  ghost predicate AboutToReset(s: State, m: MentionId) {
    exists c :: c in s.corrections && s.corrections[c].phase.Found? && m in s.corrections[c].phase.ids
  }

  ghost predicate StaysDropped(s: State, m: MentionId) {
    forall actions :: AllEnabled(s, actions) ==> IsDropped(Run(s, actions), m)
  }

  lemma DroppedStep(s: State, a: Action, m: MentionId)
    requires Inv(s) && CorefOk(s) && Enabled(s, a) && IsDropped(s, m) && !AboutToReset(s, m)
    ensures IsDropped(Step(s, a), m) && !AboutToReset(Step(s, a), m)
  {
    if a.Write? || a.CorefWrite? {
      assert PassOk(s, a.ep, s.passes[a.ep]);
    }
    var s' := Step(s, a);
    forall c | c in s'.corrections && s'.corrections[c].phase.Found? ensures m !in s'.corrections[c].phase.ids {
    }
  }

  lemma {:induction false} DroppedRun(s: State, actions: seq<Action>, m: MentionId)
    requires Inv(s) && CorefOk(s) && AllEnabled(s, actions) && IsDropped(s, m) && !AboutToReset(s, m)
    ensures IsDropped(Run(s, actions), m)
    decreases |actions|
  {
    if actions != [] {
      DroppedStep(s, actions[0], m);
      KeepsCoref(s, actions[0]);
      InvStep(s, actions[0]);
      DroppedRun(Step(s, actions[0]), actions[1..], m);
    }
  }

  /** A dropped mention stays dropped, whatever corrections, passes and coreference do, if and only if
      no correction that found it earlier is about to reset it. */
  lemma StaysDroppedIff(s: State, m: MentionId)
    requires Inv(s) && CorefOk(s) && IsDropped(s, m)
    ensures StaysDropped(s, m) <==> !AboutToReset(s, m)
  {
    if AboutToReset(s, m) {
      var c :| c in s.corrections && s.corrections[c].phase.Found? && m in s.corrections[c].phase.ids;
      RunOne(s, Reset(c));
      assert !IsDropped(Run(s, [Reset(c)]), m);
    } else {
      forall actions | AllEnabled(s, actions) ensures IsDropped(Run(s, actions), m) {
        DroppedRun(s, actions, m);
      }
    }
  }

  /** The snapshot of a pass is determined: no newer pending mention is taken before an older one. */
  lemma SnapshotIsUnique(a: set<MentionId>, b: set<MentionId>, pending: set<MentionId>)
    requires IsFirst(a, pending) && IsFirst(b, pending)
    ensures a == b
  {
    if !(a <= b) {
      var x :| x in a && x !in b;
      assert forall y :: y in b && y !in a ==> x < y;
      assert b <= a;
    }
    SameSize(a, b);
    SameSize(b, a);
  }

  lemma SameSize<T>(a: set<T>, b: set<T>)
    requires |a| == |b|
    ensures a <= b ==> a == b
  {
    if a <= b {
      assert b == a + (b - a);
    }
  }
}
