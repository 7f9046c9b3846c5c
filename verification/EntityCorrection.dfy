// Entity corrections racing with resolve passes. A correction stores an override, finds the settled
// mentions it concerns, resets them to pending and enqueues one resolve task per episode. Resolve
// passes, one at a time per episode, snapshot pending mentions, settle them, and then let
// coreference settle some of them again. Every database or queue call is one step; steps interleave
// freely.
module EntityCorrection {
  import opened Common

  type MentionId = nat

  type CorrectionId = nat

  datatype Episode = Episode(id: string)

  /** A surface form, already trimmed and lower-cased. */
  datatype Surface = Surface(text: string)

  datatype Kind = Resolved | Unresolvable | Ambiguous | Dropped

  /** `began` is the moment the pass that settled the mention began. */
  datatype Status = Pending | Settled(began: nat, kind: Kind)

  datatype Mention = Mention(episode: Episode, surface: Surface, personLike: bool, status: Status)

  /** How far a correction has come: stored; found its mentions; reset them, and still owing a task
      to some of their episodes. */
  datatype Phase = Stored | Found(ids: set<MentionId>) | Enqueuing(ids: set<MentionId>, owed: set<Episode>)

  datatype Correction = Correction(surface: Surface, scope: Option<Episode>, storedAt: nat, phase: Phase)

  /** A running pass: the mentions of its snapshot not yet written, then the mentions its
      coreference step has listed. */
  datatype Pass = Pass(start: nat, todo: set<MentionId>, coref: Option<set<MentionId>>)

  datatype State = State(
    clock: nat,
    mentions: map<MentionId, Mention>,
    corrections: map<CorrectionId, Correction>,
    queued: map<Episode, nat>,
    passes: map<Episode, Pass>)

  /** The default limit of a pass's snapshot. */
  const LIMIT: nat := 1000

  datatype Action =
    | Store(c: CorrectionId, surface: Surface, scope: Option<Episode>)
    | Find(c: CorrectionId)
    | Reset(c: CorrectionId)
    | Enqueue(c: CorrectionId, ep: Episode)
    | Start(ep: Episode, snapshot: set<MentionId>)
    | Write(ep: Episode, m: MentionId, kind: Kind)
    | CorefRead(ep: Episode)
    | CorefWrite(ep: Episode, m: MentionId, kind: Kind)
    | Finish(ep: Episode)
    | Fail(ep: Episode)

  predicate Matches(c: Correction, m: Mention) {
    m.surface == c.surface && (c.scope.None? || c.scope.value == m.episode)
  }

  predicate Revisable(status: Status) {
    status.Settled? && status.kind != Dropped
  }

  /** The rows coreference lists: unresolvable people. */
  predicate CorefLists(m: Mention) {
    m.personLike && m.status.Settled? && m.status.kind == Unresolvable
  }

  function Queued(s: State, ep: Episode): nat {
    if ep in s.queued then s.queued[ep] else 0
  }

  function PendingOf(s: State, ep: Episode): set<MentionId> {
    set m | m in s.mentions && s.mentions[m].episode == ep && s.mentions[m].status.Pending?
  }

  /** The snapshot query: the lowest ids, up to the limit. */
  ghost predicate IsFirst(snapshot: set<MentionId>, pending: set<MentionId>) {
    && snapshot <= pending
    && |snapshot| == Min(LIMIT, |pending|)
    && forall a, b :: a in snapshot && b in pending && b !in snapshot ==> a < b
  }

  ghost predicate Enabled(s: State, a: Action) {
    match a
    case Store(c, _, _) => c !in s.corrections
    case Find(c) => c in s.corrections && s.corrections[c].phase.Stored?
    case Reset(c) => c in s.corrections && s.corrections[c].phase.Found?
    case Enqueue(c, ep) =>
      c in s.corrections && s.corrections[c].phase.Enqueuing? && ep in s.corrections[c].phase.owed
    case Start(ep, snapshot) => Queued(s, ep) > 0 && ep !in s.passes && IsFirst(snapshot, PendingOf(s, ep))
    case Write(ep, m, _) => ep in s.passes && m in s.passes[ep].todo
    case CorefRead(ep) => ep in s.passes && s.passes[ep].todo == {} && s.passes[ep].coref.None?
    case CorefWrite(ep, m, kind) =>
      ep in s.passes && s.passes[ep].coref.Some? && m in s.passes[ep].coref.value && (kind.Resolved? || kind.Ambiguous?)
    case Finish(ep) => ep in s.passes && s.passes[ep].todo == {}
    case Fail(ep) => ep in s.passes
  }

  function SetStatus(s: State, m: MentionId, status: Status): map<MentionId, Mention> {
    if m in s.mentions then s.mentions[m := s.mentions[m].(status := status)] else s.mentions
  }

  function FindIds(s: State, c: Correction): set<MentionId> {
    set m | m in s.mentions && Matches(c, s.mentions[m]) && Revisable(s.mentions[m].status)
  }

  function EpisodesOf(s: State, ids: set<MentionId>): set<Episode> {
    set m | m in ids && m in s.mentions :: s.mentions[m].episode
  }

  function ResetAll(mentions: map<MentionId, Mention>, ids: set<MentionId>): map<MentionId, Mention> {
    map m | m in mentions :: if m in ids then mentions[m].(status := Pending) else mentions[m]
  }

  /** One step, without the clock. */
  function Effect(s: State, a: Action): State
    requires Enabled(s, a)
  {
    match a
    case Store(c, surface, scope) =>
      s.(corrections := s.corrections[c := Correction(surface, scope, s.clock, Stored)])
    case Find(c) =>
      var ids := FindIds(s, s.corrections[c]);
      // Nothing to revise: the call returns without a reset or a task.
      var phase := if ids == {} then Enqueuing({}, {}) else Found(ids);
      s.(corrections := s.corrections[c := s.corrections[c].(phase := phase)])
    case Reset(c) =>
      var ids := s.corrections[c].phase.ids;
      s.(mentions := ResetAll(s.mentions, ids),
         corrections := s.corrections[c := s.corrections[c].(phase := Enqueuing(ids, EpisodesOf(s, ids)))])
    case Enqueue(c, ep) =>
      var phase := s.corrections[c].phase;
      s.(queued := s.queued[ep := Queued(s, ep) + 1],
         corrections := s.corrections[c := s.corrections[c].(phase := phase.(owed := phase.owed - {ep}))])
    case Start(ep, snapshot) =>
      // A pass that finds nothing pending ends at once.
      s.(queued := s.queued[ep := Queued(s, ep) - 1],
         passes := if snapshot == {} then s.passes else s.passes[ep := Pass(s.clock, snapshot, None)])
    case Write(ep, m, kind) =>
      var p := s.passes[ep];
      s.(mentions := SetStatus(s, m, Settled(p.start, kind)), passes := s.passes[ep := p.(todo := p.todo - {m})])
    case CorefRead(ep) =>
      var listed := set m | m in s.mentions && s.mentions[m].episode == ep && CorefLists(s.mentions[m]);
      s.(passes := s.passes[ep := s.passes[ep].(coref := Some(listed))])
    case CorefWrite(ep, m, kind) =>
      var p := s.passes[ep];
      s.(mentions := SetStatus(s, m, Settled(p.start, kind)),
         passes := s.passes[ep := p.(coref := Some(p.coref.value - {m}))])
    case Finish(ep) => s.(passes := s.passes - {ep})
    case Fail(ep) => s.(queued := s.queued[ep := Queued(s, ep) + 1], passes := s.passes - {ep})
  }

  function Step(s: State, a: Action): State
    requires Enabled(s, a)
  {
    Effect(s, a).(clock := s.clock + 1)
  }

  ghost predicate AllEnabled(s: State, actions: seq<Action>)
    decreases |actions|
  {
    actions == [] || (Enabled(s, actions[0]) && AllEnabled(Step(s, actions[0]), actions[1..]))
  }

  ghost function Run(s: State, actions: seq<Action>): State
    requires AllEnabled(s, actions)
    decreases |actions|
  {
    if actions == [] then s else Run(Step(s, actions[0]), actions[1..])
  }

  // ---------- What every step keeps ----------

  ghost predicate TimesPast(s: State) {
    && (forall c :: c in s.corrections ==> s.corrections[c].storedAt < s.clock)
    && (forall ep :: ep in s.passes ==> s.passes[ep].start < s.clock)
  }

  /** A pass's unwritten mentions belong to its episode and are still pending, and they were at most
      the limit. */
  ghost predicate PassOk(s: State, ep: Episode, p: Pass) {
    && |p.todo| <= LIMIT
    && (forall m :: m in p.todo ==> m in s.mentions && s.mentions[m].episode == ep && s.mentions[m].status.Pending?)
    && (p.coref.Some? ==>
          && p.todo == {}
          && forall m :: m in p.coref.value ==> m in s.mentions && s.mentions[m].episode == ep)
  }

  ghost predicate PassesOk(s: State) {
    forall ep :: ep in s.passes ==> PassOk(s, ep, s.passes[ep])
  }

  /** A correction's mentions are among those it concerns, and a pass that still has one of them to
      write began after the correction was stored. */
  ghost predicate IdsOk(s: State, c: Correction) {
    c.phase.Stored? ||
    forall m :: m in c.phase.ids ==> m in s.mentions && Matches(c, s.mentions[m]) && ReadAfter(s, m, c.storedAt)
  }

  ghost predicate ReadAfter(s: State, m: MentionId, stored: nat)
    requires m in s.mentions
  {
    var ep := s.mentions[m].episode;
    ep in s.passes && m in s.passes[ep].todo ==> s.passes[ep].start > stored
  }

  ghost predicate CorrectionsOk(s: State) {
    forall c :: c in s.corrections ==> IdsOk(s, s.corrections[c])
  }

  ghost predicate Inv(s: State) {
    TimesPast(s) && PassesOk(s) && CorrectionsOk(s)
  }

  lemma KeepsTimes(s: State, a: Action)
    requires TimesPast(s) && Enabled(s, a)
    ensures TimesPast(Step(s, a))
  {
  }

  /** Mentions come and go only in status. */
  lemma KeepsMentions(s: State, a: Action, m: MentionId)
    requires Enabled(s, a) && m in s.mentions
    ensures var s' := Step(s, a);
      && m in s'.mentions
      && s'.mentions[m] == s.mentions[m].(status := s'.mentions[m].status)
  {
  }

  lemma KeepsPassWritten(s: State, a: Action, ep: Episode)
    requires PassesOk(s) && Enabled(s, a) && (a.Write? || a.CorefWrite?) && ep in s.passes
    ensures PassOk(Step(s, a), ep, Step(s, a).passes[ep])
  {
    assert PassOk(s, ep, s.passes[ep]);
    assert PassOk(s, a.ep, s.passes[a.ep]);
    SubsetSize(Step(s, a).passes[ep].todo, s.passes[ep].todo);
  }

  lemma KeepsPassStarted(s: State, ep: Episode, snapshot: set<MentionId>)
    requires PassesOk(s) && Enabled(s, Start(ep, snapshot))
    ensures PassesOk(Step(s, Start(ep, snapshot)))
  {
    forall e | e in s.passes ensures PassOk(s, e, s.passes[e]) {
    }
  }

  lemma KeepsPassQuiet(s: State, a: Action, ep: Episode)
    requires PassesOk(s) && Enabled(s, a) && !a.Write? && !a.CorefWrite? && !a.Start? && ep in Step(s, a).passes
    ensures PassOk(Step(s, a), ep, Step(s, a).passes[ep])
  {
    assert PassOk(s, ep, s.passes[ep]);
  }

  lemma KeepsPasses(s: State, a: Action)
    requires PassesOk(s) && Enabled(s, a)
    ensures PassesOk(Step(s, a))
  {
    if a.Start? {
      KeepsPassStarted(s, a.ep, a.snapshot);
    } else {
      forall ep | ep in Step(s, a).passes ensures PassOk(Step(s, a), ep, Step(s, a).passes[ep]) {
        if a.Write? || a.CorefWrite? {
          KeepsPassWritten(s, a, ep);
        } else {
          KeepsPassQuiet(s, a, ep);
        }
      }
    }
  }

  lemma KeepsReadAfter(s: State, a: Action, m: MentionId, stored: nat)
    requires Enabled(s, a) && m in s.mentions && stored < s.clock
    requires ReadAfter(s, m, stored)
    ensures m in Step(s, a).mentions && ReadAfter(Step(s, a), m, stored)
  {
    KeepsMentions(s, a, m);
  }

  lemma FindReadsAfter(s: State, m: MentionId, stored: nat)
    requires PassesOk(s) && m in s.mentions && s.mentions[m].status.Settled?
    ensures ReadAfter(s, m, stored)
  {
    var ep := s.mentions[m].episode;
    if ep in s.passes {
      assert PassOk(s, ep, s.passes[ep]);
    }
  }

  lemma KeepsIds(s: State, a: Action, c: CorrectionId)
    requires Inv(s) && Enabled(s, a) && c in Step(s, a).corrections
    ensures IdsOk(Step(s, a), Step(s, a).corrections[c])
  {
    var s' := Step(s, a);
    var after := s'.corrections[c];
    if !after.phase.Stored? {
      assert IdsOk(s, s.corrections[c]);
      forall m | m in after.phase.ids
        ensures m in s'.mentions && Matches(after, s'.mentions[m]) && ReadAfter(s', m, after.storedAt)
      {
        if s.corrections[c].phase.Stored? {
          FindReadsAfter(s, m, after.storedAt);
        }
        KeepsMentions(s, a, m);
        KeepsReadAfter(s, a, m, after.storedAt);
      }
    }
  }

  lemma InvStep(s: State, a: Action)
    requires Inv(s) && Enabled(s, a)
    ensures Inv(Step(s, a))
  {
    KeepsTimes(s, a);
    KeepsPasses(s, a);
    forall c | c in Step(s, a).corrections ensures IdsOk(Step(s, a), Step(s, a).corrections[c]) {
      KeepsIds(s, a, c);
    }
  }

  lemma {:induction false} InvRun(s: State, actions: seq<Action>)
    requires Inv(s) && AllEnabled(s, actions)
    ensures Inv(Run(s, actions))
    decreases |actions|
  {
    if actions != [] {
      InvStep(s, actions[0]);
      InvRun(Step(s, actions[0]), actions[1..]);
    }
  }

  // ---------- The scope of a correction ----------

  /** A correction scoped to one episode finds mentions of that episode only, and owes no other episode
      a task. */
  ghost predicate InScope(s: State, c: Correction) {
    c.scope.Some? && !c.phase.Stored? ==>
      && (forall m :: m in c.phase.ids && m in s.mentions ==> s.mentions[m].episode == c.scope.value)
      && (c.phase.Enqueuing? ==> c.phase.owed <= {c.scope.value})
  }

  ghost predicate AllInScope(s: State) {
    forall c :: c in s.corrections ==> InScope(s, s.corrections[c])
  }

  lemma KeepsScope(s: State, a: Action)
    requires AllInScope(s) && Enabled(s, a)
    ensures AllInScope(Step(s, a))
  {
    var s' := Step(s, a);
    forall c | c in s'.corrections ensures InScope(s', s'.corrections[c]) {
      assert c in s.corrections ==> InScope(s, s.corrections[c]);
    }
  }

  /** Nothing of any other episode changed: no mention, and no task count. */
  ghost predicate OnlyEpisode(s: State, after: State, ep: Episode) {
    && after.mentions.Keys == s.mentions.Keys
    && (forall m :: m in s.mentions && s.mentions[m].episode != ep ==> after.mentions[m] == s.mentions[m])
    && (forall m :: m in s.mentions && s.mentions[m].episode == ep ==> after.mentions[m].episode == ep)
    && forall e :: e != ep ==> Queued(after, e) == Queued(s, e)
  }

  /** The action stores a correction, is one of a correction scoped to the episode, or of a pass of it. */
  ghost predicate Concerns(s: State, a: Action, ep: Episode) {
    match a
    case Store(_, _, _) => true
    case Find(c) => c in s.corrections && s.corrections[c].scope == Some(ep)
    case Reset(c) => c in s.corrections && s.corrections[c].scope == Some(ep)
    case Enqueue(c, _) => c in s.corrections && s.corrections[c].scope == Some(ep)
    case _ => a.ep == ep
  }

  lemma ConcernsOnly(s: State, a: Action, ep: Episode)
    requires PassesOk(s) && AllInScope(s) && Enabled(s, a) && Concerns(s, a, ep)
    ensures OnlyEpisode(s, Step(s, a), ep)
  {
    if a.Reset? || a.Enqueue? {
      assert InScope(s, s.corrections[a.c]);
    } else if a.Write? || a.CorefWrite? {
      assert PassOk(s, ep, s.passes[ep]);
    }
  }

  ghost predicate AllConcern(s: State, actions: seq<Action>, ep: Episode)
    requires AllEnabled(s, actions)
    decreases |actions|
  {
    actions == [] || (Concerns(s, actions[0], ep) && AllConcern(Step(s, actions[0]), actions[1..], ep))
  }

  /** However corrections scoped to one episode and passes of that episode interleave, no mention and no
      task of any other episode changes. */
  lemma {:induction false} ScopedRunsStayInScope(s: State, actions: seq<Action>, ep: Episode)
    requires Inv(s) && AllInScope(s) && AllEnabled(s, actions) && AllConcern(s, actions, ep)
    ensures OnlyEpisode(s, Run(s, actions), ep) && AllInScope(Run(s, actions))
    decreases |actions|
  {
    if actions != [] {
      ConcernsOnly(s, actions[0], ep);
      InvStep(s, actions[0]);
      KeepsScope(s, actions[0]);
      ScopedRunsStayInScope(Step(s, actions[0]), actions[1..], ep);
    }
  }

  // ---------- Composing runs ----------

  lemma {:induction false} RunConcat(s: State, a: seq<Action>, b: seq<Action>)
    requires AllEnabled(s, a) && AllEnabled(Run(s, a), b)
    ensures AllEnabled(s, a + b) && Run(s, a + b) == Run(Run(s, a), b)
    decreases |a|
  {
    if a == [] {
      assert a + b == b;
    } else {
      assert (a + b)[0] == a[0] && (a + b)[1..] == a[1..] + b;
      RunConcat(Step(s, a[0]), a[1..], b);
    }
  }

  lemma RunOne(s: State, a: Action)
    requires Enabled(s, a)
    ensures AllEnabled(s, [a]) && Run(s, [a]) == Step(s, a)
  {
  }

  /** The pass has written everything it held, and nothing else happened. */
  ghost predicate Drained(s: State, after: State, ep: Episode) {
    && ep in s.passes && after.corrections == s.corrections && after.queued == s.queued
    && after.passes == s.passes[ep := s.passes[ep].(todo := {})]
    && after.mentions.Keys == s.mentions.Keys
    && forall m :: m in s.mentions && m !in s.passes[ep].todo ==> after.mentions[m] == s.mentions[m]
  }

  lemma WriteThenDrained(s: State, ep: Episode, m: MentionId, after: State)
    requires Enabled(s, Write(ep, m, Unresolvable)) && Drained(Step(s, Write(ep, m, Unresolvable)), after, ep)
    ensures Drained(s, after, ep)
  {
  }

  ghost predicate AllWrites(actions: seq<Action>) {
    forall k :: 0 <= k < |actions| ==> actions[k].Write?
  }

  /** Whatever a pass still holds, it can be made to write. */
  lemma {:induction false} Drain(s: State, ep: Episode) returns (actions: seq<Action>)
    requires Inv(s) && ep in s.passes
    ensures AllEnabled(s, actions) && AllWrites(actions)
    ensures Inv(Run(s, actions)) && Drained(s, Run(s, actions), ep)
    decreases |s.passes[ep].todo|
  {
    if s.passes[ep].todo == {} {
      actions := [];
      assert s.passes[ep := s.passes[ep].(todo := {})] == s.passes;
    } else {
      var m :| m in s.passes[ep].todo;
      var a := Write(ep, m, Unresolvable);
      InvStep(s, a);
      var rest := Drain(Step(s, a), ep);
      actions := [a] + rest;
      RunOne(s, a);
      RunConcat(s, [a], rest);
      WriteThenDrained(s, ep, m, Run(s, actions));
    }
  }

  // ---------- One correction, start to end ----------

  /** The task counts after one more task for each of the episodes. */
  ghost predicate Enqueued(before: State, after: State, episodes: set<Episode>) {
    forall ep :: Queued(after, ep) == Queued(before, ep) + if ep in episodes then 1 else 0
  }

  /** What a correction of the surface does to one mention: a settled one of the surface and within the
      scope becomes pending unless it was dropped; any other stays as it was. */
  ghost predicate ReopensMention(was: Mention, now: Mention, surface: Surface, scope: Option<Episode>) {
    && now.episode == was.episode && now.surface == was.surface && now.personLike == was.personLike
    && (now.status.Pending? <==>
          was.status.Pending? ||
          (&& was.surface == surface && (scope == None || scope == Some(was.episode))
           && (was.status.kind == Resolved || was.status.kind == Unresolvable || was.status.kind == Ambiguous)))
    && (!now.status.Pending? ==> now == was)
  }

  /** One of the episode's mentions changed. */
  ghost predicate Touched(before: State, after: State, ep: Episode)
    requires before.mentions.Keys == after.mentions.Keys
  {
    exists m :: m in before.mentions && before.mentions[m].episode == ep && after.mentions[m] != before.mentions[m]
  }

  /** What a correction of the surface does to all mentions, and to the task counts: an episode has one
      more task exactly when one of its mentions changed. */
  ghost predicate Reopens(before: State, after: State, surface: Surface, scope: Option<Episode>) {
    && before.mentions.Keys == after.mentions.Keys
    && (forall m :: m in before.mentions ==> ReopensMention(before.mentions[m], after.mentions[m], surface, scope))
    && forall ep :: Queued(after, ep) == Queued(before, ep) + if Touched(before, after, ep) then 1 else 0
  }

  lemma ResetReopens(before: State, after: State, c: Correction)
    requires after.mentions == ResetAll(before.mentions, FindIds(before, c))
    requires Enqueued(before, after, EpisodesOf(before, FindIds(before, c)))
    ensures Reopens(before, after, c.surface, c.scope)
  {
    var ids := FindIds(before, c);
    forall ep ensures Touched(before, after, ep) <==> ep in EpisodesOf(before, ids) {
      if ep in EpisodesOf(before, ids) {
        var m :| m in ids && before.mentions[m].episode == ep;
        assert after.mentions[m] != before.mentions[m];
      }
    }
  }

  class EntityReview {
    var state: State

    constructor (state: State)
      ensures this.state == state
    {
      this.state := state;
    }

    /** With nothing interleaved: of the settled mentions, exactly those of the surface and within the
        scope that no one dropped become pending, nothing else changes, and exactly their episodes have
        one more task. An empty surface is refused. */
    method ApplyCorrection(c: CorrectionId, surface: Surface, scope: Option<Episode>)
      returns (ok: bool, affected: nat, episodesEnqueued: nat)
      requires c !in state.corrections
      modifies this
      ensures ok == (surface.text != "")
      ensures !ok ==> state == old(state)
      ensures ok ==>
        var correction := Correction(surface, scope, old(state).clock, Stored);
        var ids := FindIds(old(state), correction);
        && affected == |ids| && episodesEnqueued == |EpisodesOf(old(state), ids)|
        && state.mentions == ResetAll(old(state).mentions, ids)
        && state.corrections == old(state).corrections[c := correction.(phase := Enqueuing(ids, {}))]
        && state.passes == old(state).passes
        && Enqueued(old(state), state, EpisodesOf(old(state), ids))
      ensures ok ==> Reopens(old(state), state, surface, scope)
    {
      ok, affected, episodesEnqueued := surface.text != "", 0, 0;
      if ok {
        state := Step(state, Store(c, surface, scope));
        ghost var ids := FindIds(state, state.corrections[c]);
        assert FindIds(old(state), state.corrections[c]) == ids;
        assert EpisodesOf(old(state), ids) == EpisodesOf(state, ids);
        affected, episodesEnqueued := ReresolveSurface(c);
        ResetReopens(old(state), state, Correction(surface, scope, old(state).clock, Stored));
      }
    }


    method ReresolveSurface(c: CorrectionId) returns (affected: nat, episodesEnqueued: nat)
      requires c in state.corrections && state.corrections[c].phase.Stored?
      modifies this
      ensures var ids := FindIds(old(state), old(state).corrections[c]);
        && affected == |ids| && episodesEnqueued == |EpisodesOf(old(state), ids)|
        && state.mentions == ResetAll(old(state).mentions, ids)
        && state.corrections ==
          old(state).corrections[c := old(state).corrections[c].(phase := Enqueuing(ids, {}))]
        && state.passes == old(state).passes
        && Enqueued(old(state), state, EpisodesOf(old(state), ids))
      ensures Reopens(old(state), state, old(state).corrections[c].surface, old(state).corrections[c].scope)
    {
      var ids := FindIds(state, state.corrections[c]);
      state := Step(state, Find(c));
      if ids == {} {
        assert ResetAll(old(state).mentions, {}) == old(state).mentions;
        ResetReopens(old(state), state, old(state).corrections[c]);
        return 0, 0;
      }
      var owed := EpisodesOf(state, ids);
      state := Step(state, Reset(c));
      affected, episodesEnqueued := |ids|, |owed|;
      EnqueueAll(c);
      ResetReopens(old(state), state, old(state).corrections[c]);
    }

    method EnqueueAll(c: CorrectionId)
      requires c in state.corrections && state.corrections[c].phase.Enqueuing?
      modifies this
      ensures var phase := old(state).corrections[c].phase;
        && state.mentions == old(state).mentions && state.passes == old(state).passes
        && state.corrections == old(state).corrections[c := old(state).corrections[c].(phase := phase.(owed := {}))]
        && Enqueued(old(state), state, phase.owed)
    {
      ghost var owed := state.corrections[c].phase.owed;
      while state.corrections[c].phase.owed != {}
        invariant c in state.corrections && state.corrections[c].phase.Enqueuing?
        invariant state.corrections[c].phase.owed <= owed
        invariant state.mentions == old(state).mentions && state.passes == old(state).passes
        invariant state.corrections == old(state).corrections[c := old(state).corrections[c].(
                    phase := old(state).corrections[c].phase.(owed := state.corrections[c].phase.owed))]
        invariant Enqueued(old(state), state, owed - state.corrections[c].phase.owed)
        decreases |state.corrections[c].phase.owed|
      {
        var ep :| ep in state.corrections[c].phase.owed;
        state := Step(state, Enqueue(c, ep));
      }
    }
  }
}
