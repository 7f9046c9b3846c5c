// Which mentions a correction reaches, whatever resolve passes and coreference do meanwhile: a
// mention is missed when a pass begun before the correction was stored settles it afterwards.
module CorrectionReach {
  import opened Common
  import opened EntityCorrection

  /** In any run, a pass that writes from its snapshot a mention some correction has found began after
      that correction was stored, so it saw the correction. Coreference is another matter:
      `EscapeAfterReset` below. */
  lemma FoundMentionsAreReread(s: State, actions: seq<Action>, c: CorrectionId, ep: Episode, m: MentionId, kind: Kind)
    requires Inv(s) && AllEnabled(s, actions)
    requires var s' := Run(s, actions);
      && Enabled(s', Write(ep, m, kind))
      && c in s'.corrections && !s'.corrections[c].phase.Stored? && m in s'.corrections[c].phase.ids
    ensures Run(s, actions).passes[ep].start > Run(s, actions).corrections[c].storedAt
  {
    InvRun(s, actions);
    var s' := Run(s, actions);
    assert IdsOk(s', s'.corrections[c]);
    assert PassOk(s', ep, s'.passes[ep]);
  }

  /** A pass begun before `stored` is still to write the mention: from its snapshot, from what its
      coreference step has listed, or from what that step would list. */
  predicate AtRisk(s: State, m: MentionId, stored: nat)
    requires m in s.mentions
  {
    var ep := s.mentions[m].episode;
    ep in s.passes && s.passes[ep].start <= stored &&
    var p := s.passes[ep];
    m in p.todo || (if p.coref.Some? then m in p.coref.value else CorefLists(s.mentions[m]))
  }

  /** The correction has reached the mention: unless it was dropped on purpose, or is about to be
      reset, its settlement is by a pass begun after the correction was stored. */
  predicate Landed(c: Correction, m: MentionId, mention: Mention) {
    mention.status.Settled? ==>
      || mention.status.began > c.storedAt
      || mention.status.kind == Dropped
      || (c.phase.Found? && m in c.phase.ids)
  }

  ghost predicate AllLanded(s: State, c: CorrectionId)
    requires c in s.corrections
  {
    forall m :: m in s.mentions && Matches(s.corrections[c], s.mentions[m]) ==>
      Landed(s.corrections[c], m, s.mentions[m])
  }

  ghost predicate NoneAtRisk(s: State, c: Correction) {
    forall m :: m in s.mentions && Matches(c, s.mentions[m]) ==> !AtRisk(s, m, c.storedAt)
  }

  /** A mention does not come to be at risk from a pass already running. */
  lemma RiskFades(s: State, a: Action, m: MentionId, stored: nat)
    requires Inv(s) && Enabled(s, a) && m in s.mentions && stored < s.clock
    requires m in Step(s, a).mentions && AtRisk(Step(s, a), m, stored)
    ensures AtRisk(s, m, stored)
  {
    KeepsMentions(s, a, m);
    var ep := s.mentions[m].episode;
    if a.Write? || a.CorefWrite? {
      assert PassOk(s, a.ep, s.passes[a.ep]);
    }
    assert ep in s.passes;
  }

  lemma LandedStep(s: State, a: Action, c: CorrectionId, m: MentionId)
    requires Inv(s) && Enabled(s, a) && m in s.mentions
    requires c in s.corrections && !s.corrections[c].phase.Stored? && Matches(s.corrections[c], s.mentions[m])
    requires Landed(s.corrections[c], m, s.mentions[m]) && !AtRisk(s, m, s.corrections[c].storedAt)
    ensures var s' := Step(s, a);
      && m in s'.mentions && c in s'.corrections && !s'.corrections[c].phase.Stored?
      && s'.corrections[c].storedAt == s.corrections[c].storedAt && Matches(s'.corrections[c], s'.mentions[m])
      && Landed(s'.corrections[c], m, s'.mentions[m])
  {
    KeepsMentions(s, a, m);
    if a.Write? || a.CorefWrite? {
      assert PassOk(s, a.ep, s.passes[a.ep]);
    }
  }

  lemma ReachStep(s: State, a: Action, c: CorrectionId)
    requires Inv(s) && Enabled(s, a) && c in s.corrections && !s.corrections[c].phase.Stored?
    requires AllLanded(s, c) && NoneAtRisk(s, s.corrections[c])
    ensures var s' := Step(s, a);
      && c in s'.corrections && !s'.corrections[c].phase.Stored?
      && AllLanded(s', c) && NoneAtRisk(s', s'.corrections[c])
  {
    var s' := Step(s, a);
    assert s'.mentions.Keys == s.mentions.Keys;
    forall m | m in s'.mentions && Matches(s'.corrections[c], s'.mentions[m])
      ensures Landed(s'.corrections[c], m, s'.mentions[m]) && !AtRisk(s', m, s'.corrections[c].storedAt)
    {
      assert m in s.mentions;
      KeepsMentions(s, a, m);
      LandedStep(s, a, c, m);
      if AtRisk(s', m, s'.corrections[c].storedAt) {
        RiskFades(s, a, m, s.corrections[c].storedAt);
      }
    }
  }

  lemma {:induction false} ReachRun(s: State, actions: seq<Action>, c: CorrectionId)
    requires Inv(s) && AllEnabled(s, actions) && c in s.corrections && !s.corrections[c].phase.Stored?
    requires AllLanded(s, c) && NoneAtRisk(s, s.corrections[c])
    ensures c in Run(s, actions).corrections && AllLanded(Run(s, actions), c)
    decreases |actions|
  {
    if actions != [] {
      InvStep(s, actions[0]);
      ReachStep(s, actions[0], c);
      ReachRun(Step(s, actions[0]), actions[1..], c);
    }
  }

  lemma FindLands(s: State, c: CorrectionId)
    requires Enabled(s, Find(c))
    ensures AllLanded(Step(s, Find(c)), c)
  {
    var s' := Step(s, Find(c));
    forall m | m in s'.mentions && Matches(s'.corrections[c], s'.mentions[m])
      ensures Landed(s'.corrections[c], m, s'.mentions[m])
    {
      if Revisable(s.mentions[m].status) {
        assert m in FindIds(s, s.corrections[c]);
      }
    }
  }

  /** A continuation after which the correction has missed the mention. */
  ghost predicate Misses(s: State, actions: seq<Action>, c: CorrectionId, m: MentionId) {
    && AllEnabled(s, actions)
    && c in Run(s, actions).corrections && m in Run(s, actions).mentions
    && Matches(Run(s, actions).corrections[c], Run(s, actions).mentions[m])
    && !Landed(Run(s, actions).corrections[c], m, Run(s, actions).mentions[m])
  }

  lemma EscapeFromSnapshot(s: State, c: CorrectionId, m: MentionId) returns (actions: seq<Action>)
    requires Inv(s) && c in s.corrections && !s.corrections[c].phase.Stored? && m in s.mentions
    requires Matches(s.corrections[c], s.mentions[m]) && AtRisk(s, m, s.corrections[c].storedAt)
    requires m in s.passes[s.mentions[m].episode].todo
    ensures Misses(s, actions, c, m)
  {
    assert IdsOk(s, s.corrections[c]);
    actions := [Write(s.mentions[m].episode, m, Resolved)];
    assert Run(s, actions) == Step(s, actions[0]);
  }

  lemma EscapeFromList(s: State, c: CorrectionId, m: MentionId) returns (actions: seq<Action>)
    requires Inv(s) && c in s.corrections && s.corrections[c].phase.Enqueuing? && m in s.mentions
    requires Matches(s.corrections[c], s.mentions[m])
    requires var ep := s.mentions[m].episode;
      ep in s.passes && s.passes[ep].start <= s.corrections[c].storedAt
      && s.passes[ep].coref.Some? && m in s.passes[ep].coref.value
    ensures Misses(s, actions, c, m)
  {
    actions := [CorefWrite(s.mentions[m].episode, m, Resolved)];
    assert Run(s, actions) == Step(s, actions[0]);
  }

  lemma PrependAll(s: State, first: seq<Action>, rest: seq<Action>, c: CorrectionId, m: MentionId)
    requires AllEnabled(s, first) && Misses(Run(s, first), rest, c, m)
    ensures Misses(s, first + rest, c, m)
  {
    RunConcat(s, first, rest);
  }

  lemma Prepend(s: State, a: Action, rest: seq<Action>, c: CorrectionId, m: MentionId)
    requires Enabled(s, a) && Misses(Step(s, a), rest, c, m)
    ensures Misses(s, [a] + rest, c, m)
  {
    RunOne(s, a);
    PrependAll(s, [a], rest, c, m);
  }

  /** With the list already read, the correction finishes its reset and coreference overwrites it. */
  lemma EscapeAfterReset(s: State, c: CorrectionId, m: MentionId) returns (actions: seq<Action>)
    requires Inv(s) && c in s.corrections && !s.corrections[c].phase.Stored? && m in s.mentions
    requires Matches(s.corrections[c], s.mentions[m])
    requires var ep := s.mentions[m].episode;
      ep in s.passes && s.passes[ep].start <= s.corrections[c].storedAt
      && s.passes[ep].coref.Some? && m in s.passes[ep].coref.value
    ensures Misses(s, actions, c, m)
  {
    if s.corrections[c].phase.Found? {
      var a := Reset(c);
      InvStep(s, a);
      KeepsMentions(s, a, m);
      var rest := EscapeFromList(Step(s, a), c, m);
      actions := [a] + rest;
      Prepend(s, a, rest, c, m);
    } else {
      actions := EscapeFromList(s, c, m);
    }
  }

  /** With the list still to be read, the pass first writes what it holds, then lists the mention. */
  lemma EscapeThroughCoref(s: State, c: CorrectionId, m: MentionId) returns (actions: seq<Action>)
    requires Inv(s) && c in s.corrections && !s.corrections[c].phase.Stored? && m in s.mentions
    requires Matches(s.corrections[c], s.mentions[m]) && CorefLists(s.mentions[m])
    requires var ep := s.mentions[m].episode;
      ep in s.passes && s.passes[ep].start <= s.corrections[c].storedAt && s.passes[ep].coref.None?
    ensures Misses(s, actions, c, m)
  {
    var ep := s.mentions[m].episode;
    assert PassOk(s, ep, s.passes[ep]);
    var drained := Drain(s, ep);
    var s1 := Run(s, drained);
    var a := CorefRead(ep);
    InvStep(s1, a);
    var rest := EscapeAfterReset(Step(s1, a), c, m);
    Prepend(s1, a, rest, c, m);
    actions := drained + ([a] + rest);
    PrependAll(s, drained, [a] + rest, c, m);
  }

  lemma RiskEscapes(s: State, c: CorrectionId, m: MentionId) returns (actions: seq<Action>)
    requires Inv(s) && c in s.corrections && !s.corrections[c].phase.Stored? && m in s.mentions
    requires Matches(s.corrections[c], s.mentions[m]) && AtRisk(s, m, s.corrections[c].storedAt)
    ensures Misses(s, actions, c, m)
  {
    var p := s.passes[s.mentions[m].episode];
    if m in p.todo {
      actions := EscapeFromSnapshot(s, c, m);
    } else if p.coref.Some? {
      actions := EscapeAfterReset(s, c, m);
    } else {
      actions := EscapeThroughCoref(s, c, m);
    }
  }

  /** Whatever happens next, the correction has reached every mention it concerns. */
  ghost predicate AlwaysReaches(s: State, c: CorrectionId) {
    forall actions: seq<Action> :: AllEnabled(s, actions) ==>
      c in Run(s, actions).corrections && AllLanded(Run(s, actions), c)
  }

  lemma MissedOnce(s: State, actions: seq<Action>, c: CorrectionId, m: MentionId)
    requires Misses(s, actions, c, m)
    ensures !AlwaysReaches(s, c)
  {
    assert AllEnabled(s, actions);
    assert !AllLanded(Run(s, actions), c);
  }

  lemma FindLeavesRisk(s: State, c: CorrectionId)
    requires Enabled(s, Find(c))
    ensures var s' := Step(s, Find(c)); NoneAtRisk(s', s'.corrections[c]) <==> NoneAtRisk(s, s.corrections[c])
  {
    var s' := Step(s, Find(c));
    assert s'.mentions == s.mentions;
    var t := s.corrections[c].storedAt;
    forall m | m in s.mentions ensures AtRisk(s', m, t) == AtRisk(s, m, t) {
    }
  }

  /** When a correction looks for its mentions, it is sure to reach every mention it concerns if and
      only if no pass begun before it was stored is still to write one of them. */
  lemma CorrectionReachesAllIff(s: State, c: CorrectionId)
    requires Inv(s) && Enabled(s, Find(c))
    ensures AlwaysReaches(Step(s, Find(c)), c) <==> NoneAtRisk(s, s.corrections[c])
  {
    var s' := Step(s, Find(c));
    InvStep(s, Find(c));
    FindLands(s, c);
    FindLeavesRisk(s, c);
    if NoneAtRisk(s, s.corrections[c]) {
      forall actions: seq<Action> | AllEnabled(s', actions)
        ensures c in Run(s', actions).corrections && AllLanded(Run(s', actions), c)
      {
        ReachRun(s', actions, c);
      }
    } else {
      var m :| m in s'.mentions && Matches(s'.corrections[c], s'.mentions[m])
               && AtRisk(s', m, s'.corrections[c].storedAt);
      var actions := RiskEscapes(s', c, m);
      MissedOnce(s', actions, c, m);
    }
  }
}
