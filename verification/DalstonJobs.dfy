// Reattaching to a transcription job after a crash. An attempt looks for the job an earlier attempt
// left behind, submits one otherwise, records it in the pending-operations table, polls it and drops
// the record. It may die after any step; the server and the attempts on other episodes move on
// between steps.
module DalstonJobs {
  import opened Common

  datatype Episode = Episode(id: string)

  /** Job ids are issued by the server; other providers' handles are of another kind. */
  datatype OpId = JobOp(n: nat) | Handle(name: string)

  datatype Provider = Dalston | OtherProvider(name: string)

  datatype Row = Row(provider: Provider, episode: Episode)

  datatype JobStatus = Waiting | Running | Completed | Failed | Cancelled

  datatype Job = Job(episode: Option<Episode>, status: JobStatus)

  datatype Outcome = Done(job: nat) | Raised

  /** What the server says about a job: it knows none, its status, or nothing at all. */
  datatype Answer = Unknown | Known(status: JobStatus) | NoAnswer

  datatype Ask = Ask(job: nat, answer: Answer)

  datatype Poll = Poll(job: nat, ended: bool)

  /** Where an attempt dies, if it gets there: with the job on the server but not recorded, or with the
      poll over but the row not dropped. */
  datatype Deaths = Deaths(beforeSave: bool, beforeDrop: bool)

  /** Nothing is left to wait for: the job is unknown, or was ended without a result. */
  predicate SaysGone(answer: Answer) {
    answer.Unknown? || (answer.Known? && (answer.status.Failed? || answer.status.Cancelled?))
  }

  /** The job has a result, or will have one. */
  predicate SaysUsable(answer: Answer) {
    answer.Known? && (answer.status.Waiting? || answer.status.Running? || answer.status.Completed?)
  }

  /** Some answer said that its job is usable. */
  predicate AnyUsable(asks: seq<Ask>) {
    exists i :: 0 <= i < |asks| && SaysUsable(asks[i].answer)
  }

  predicate IsLive(status: JobStatus) {
    status.Waiting? || status.Running?
  }

  predicate IsResumable(status: JobStatus) {
    status.Waiting? || status.Running? || status.Completed?
  }

  // ---------- Tables as values ----------

  /** The episode's Dalston rows. */
  function OwnRows(rows: map<OpId, Row>, ep: Episode): set<OpId> {
    set id | id in rows && rows[id] == Row(Dalston, ep)
  }

  /** Jobs submitted for the episode and still waiting or running. */
  function LiveJobs(jobs: map<nat, Job>, ep: Episode): set<nat> {
    set n | n in jobs && jobs[n].episode == Some(ep) && IsLive(jobs[n].status)
  }

  /** Live jobs that no row names. */
  function Orphans(rows: map<OpId, Row>, jobs: map<nat, Job>, ep: Episode): set<nat> {
    set n | n in LiveJobs(jobs, ep) && JobOp(n) !in OwnRows(rows, ep)
  }

  /** The server no longer works on the job and never will again. */
  predicate IsDead(jobs: map<nat, Job>, n: nat) {
    n in jobs ==> !IsResumable(jobs[n].status)
  }

  predicate RowsOk(rows: map<OpId, Row>, issued: nat) {
    forall id :: id in rows ==> if rows[id].provider.Dalston? then id.JobOp? && id.n < issued else id.Handle?
  }

  predicate JobsOk(jobs: map<nat, Job>, issued: nat) {
    forall n :: n in jobs ==> n < issued
  }

  /** What the server and other episodes' attempts may do: no issued id is reused, none returns from
      a terminal status, any job may be purged, and new jobs are for other episodes. */
  predicate Progresses(before: map<nat, Job>, after: map<nat, Job>, issued: nat, ep: Episode) {
    forall n :: n in after ==>
      if n < issued
      then n in before && after[n].episode == before[n].episode && (after[n] == before[n] || IsLive(before[n].status))
      else after[n].episode != Some(ep)
  }

  /** Other episodes' attempts record no job of this episode. */
  predicate NamesNoNew(before: map<OpId, Row>, after: map<OpId, Row>, jobs: map<nat, Job>, ep: Episode) {
    forall n :: n in jobs && jobs[n].episode == Some(ep) && JobOp(n) in after ==> JobOp(n) in before
  }

  lemma ProgressShrinks(rows: map<OpId, Row>, rows': map<OpId, Row>, before: map<nat, Job>, after: map<nat, Job>,
                        issued: nat, ep: Episode)
    requires Progresses(before, after, issued, ep) && OwnRows(rows', ep) == OwnRows(rows, ep)
    ensures LiveJobs(after, ep) <= LiveJobs(before, ep)
    ensures Orphans(rows', after, ep) <= Orphans(rows, before, ep)
    ensures |Orphans(rows', after, ep)| <= |Orphans(rows, before, ep)|
  {
    SubsetSize(Orphans(rows', after, ep), Orphans(rows, before, ep));
  }

  /** Dropping the row of a job that is not live leaves the orphans as they were. */
  lemma DropDeadRow(rows: map<OpId, Row>, jobs: map<nat, Job>, ep: Episode, n: nat)
    requires n !in LiveJobs(jobs, ep)
    ensures OwnRows(rows - {JobOp(n)}, ep) == OwnRows(rows, ep) - {JobOp(n)}
    ensures Orphans(rows - {JobOp(n)}, jobs, ep) == Orphans(rows, jobs, ep)
  {
    assert OwnRows(rows - {JobOp(n)}, ep) == OwnRows(rows, ep) - {JobOp(n)};
  }

  /** A fresh job is one more orphan. */
  lemma SubmittedIsOrphan(rows: map<OpId, Row>, jobs: map<nat, Job>, ep: Episode, n: nat)
    requires n !in jobs && JobOp(n) !in rows
    ensures Orphans(rows, jobs[n := Job(Some(ep), Waiting)], ep) == Orphans(rows, jobs, ep) + {n}
  {
  }

  /** Recorded, it is none. */
  lemma SavedIsNamed(rows: map<OpId, Row>, jobs: map<nat, Job>, ep: Episode, n: nat)
    requires JobOp(n) !in rows
    ensures OwnRows(rows[JobOp(n) := Row(Dalston, ep)], ep) == OwnRows(rows, ep) + {JobOp(n)}
    ensures Orphans(rows[JobOp(n) := Row(Dalston, ep)], jobs, ep) == Orphans(rows, jobs, ep) - {n}
  {
  }

  lemma OneMore(after: set<nat>, before: set<nat>, n: nat)
    requires after <= before + {n}
    ensures |after| <= |before| + 1 && |after - {n}| <= |before|
  {
    SubsetSize(after, before + {n});
    SubsetSize(after - {n}, before);
  }

  lemma AtMostOneNamed(rows: map<OpId, Row>, ep: Episode, named: set<nat>)
    requires |OwnRows(rows, ep)| <= 1 && forall n :: n in named ==> JobOp(n) in OwnRows(rows, ep)
    ensures |named| <= 1
  {
    if n :| n in named {
      forall k | k in named ensures k == n {
        SubsetSize({JobOp(k), JobOp(n)}, OwnRows(rows, ep));
      }
      assert named == {n};
    }
  }

  /** With one row at most, the live jobs are the named one and the orphans. */
  lemma LiveJobsAreBounded(rows: map<OpId, Row>, jobs: map<nat, Job>, ep: Episode, lost: nat)
    requires |OwnRows(rows, ep)| <= 1 && |Orphans(rows, jobs, ep)| <= lost
    ensures |LiveJobs(jobs, ep)| <= 1 + lost
  {
    var orphans := Orphans(rows, jobs, ep);
    var named := LiveJobs(jobs, ep) - orphans;
    AtMostOneNamed(rows, ep, named);
    assert LiveJobs(jobs, ep) == named + orphans;
  }

  // ---------- What the scan keeps ----------

  /** Every row that went named a dead job. */
  ghost predicate AllDead(rows: map<OpId, Row>, original: map<OpId, Row>, jobs: map<nat, Job>, ep: Episode) {
    forall n :: JobOp(n) in OwnRows(original, ep) && JobOp(n) !in OwnRows(rows, ep) ==> IsDead(jobs, n)
  }

  ghost predicate DeadJobs(pruned: set<nat>, jobs: map<nat, Job>, issued: nat) {
    forall n :: n in pruned ==> n < issued && IsDead(jobs, n)
  }

  lemma DeadStayDead(pruned: set<nat>, before: map<nat, Job>, after: map<nat, Job>, issued: nat, later: nat,
                     ep: Episode)
    requires DeadJobs(pruned, before, issued) && Progresses(before, after, issued, ep) && issued <= later
    ensures DeadJobs(pruned, after, later)
  {
  }

  /** The jobs that answers say are gone. */
  function GoneJobs(asks: seq<Ask>): set<nat> {
    set ask | ask in asks && SaysGone(ask.answer) :: ask.job
  }

  /** The rows of those jobs. */
  function GoneRows(asks: seq<Ask>): set<OpId> {
    set n | n in GoneJobs(asks) :: JobOp(n)
  }

  /** The scan asked about some of the rows, once each, and every answer so far said the job is gone. */
  ghost predicate ScanGoesOn(asks: seq<Ask>, own: set<OpId>) {
    && (forall i :: 0 <= i < |asks| ==> JobOp(asks[i].job) in own && SaysGone(asks[i].answer))
    && forall i, j :: 0 <= i < j < |asks| ==> asks[i].job != asks[j].job
  }

  /** How a scan of the rows ends: at the first job that is usable, at the first call without an answer,
      or with every row asked about. */
  ghost predicate ScanEnds(asks: seq<Ask>, own: set<OpId>, found: Option<nat>, raised: bool) {
    if asks != [] && !SaysGone(Last(asks).answer) then
      && ScanGoesOn(Front(asks), own) && JobOp(Last(asks).job) in own && Last(asks).job !in GoneJobs(asks)
      && raised == Last(asks).answer.NoAnswer?
      && found == if raised then None else Some(Last(asks).job)
    else
      && ScanGoesOn(asks, own)
      && found.None? && !raised && own == GoneRows(asks)
  }

  lemma OneMoreGone(asks: seq<Ask>, ask: Ask)
    ensures GoneJobs(asks + [ask]) == GoneJobs(asks) + if SaysGone(ask.answer) then {ask.job} else {}
    ensures GoneRows(asks + [ask]) == GoneRows(asks) + if SaysGone(ask.answer) then {JobOp(ask.job)} else {}
  {
    var all := asks + [ask];
    assert all[|asks|] == ask && forall i :: 0 <= i < |asks| ==> all[i] == asks[i];
    assert GoneJobs(all) == GoneJobs(asks) + if SaysGone(ask.answer) then {ask.job} else {};
  }

  lemma AskedAreGone(asks: seq<Ask>, own: set<OpId>)
    requires ScanGoesOn(asks, own)
    ensures GoneRows(asks) <= own && forall i :: 0 <= i < |asks| ==> JobOp(asks[i].job) in GoneRows(asks)
  {
    forall i | 0 <= i < |asks| ensures asks[i].job in GoneJobs(asks) {
      assert asks[i] in asks;
    }
  }

  /** One more question, about a row not yet asked about: the scan goes on or ends with it. */
  lemma ScanStep(asks: seq<Ask>, own: set<OpId>, left: set<OpId>, ask: Ask)
    requires ScanGoesOn(asks, own) && left == own - GoneRows(asks) && JobOp(ask.job) in left
    ensures left - (if SaysGone(ask.answer) then {JobOp(ask.job)} else {}) == own - GoneRows(asks + [ask])
    ensures SaysGone(ask.answer) ==> ScanGoesOn(asks + [ask], own)
    ensures !SaysGone(ask.answer) ==>
      ScanEnds(asks + [ask], own, if ask.answer.NoAnswer? then None else Some(ask.job), ask.answer.NoAnswer?)
  {
    AppendParts(asks, ask);
    AskedAreGone(asks, own);
    OneMoreGone(asks, ask);
  }

  lemma ScanFinishes(asks: seq<Ask>, own: set<OpId>)
    requires ScanGoesOn(asks, own) && own - GoneRows(asks) == {}
    ensures ScanEnds(asks, own, None, false)
  {
    AskedAreGone(asks, own);
    forall id | id in own ensures id in GoneRows(asks) {
      assert id !in own - GoneRows(asks);
    }
    assert asks != [] ==> Last(asks) == asks[|asks| - 1];
  }

  /** Some row's job was usable when asked about, or the scan was cut short, exactly unless every row's
      job is gone. */
  lemma ScanOutcome(asks: seq<Ask>, own: set<OpId>, found: Option<nat>, raised: bool)
    requires ScanEnds(asks, own, found, raised)
    ensures found.None? && !raised <==> own == GoneRows(asks)
    ensures found.Some? <==> AnyUsable(asks)
    ensures forall i :: 0 <= i < |asks| ==> JobOp(asks[i].job) in own
    ensures found.Some? ==> Last(asks).job == found.value && SaysUsable(Last(asks).answer)
  {
    if asks != [] {
      assert asks == Front(asks) + [Last(asks)];
      if found.Some? {
        assert SaysUsable(asks[|asks| - 1].answer);
      }
    }
  }

  lemma DroppedAreDead(rows: map<OpId, Row>, original: map<OpId, Row>, jobs: map<nat, Job>, issued: nat, ep: Episode,
                       asks: seq<Ask>)
    requires OwnRows(rows, ep) == OwnRows(original, ep) - GoneRows(asks) && DeadJobs(GoneJobs(asks), jobs, issued)
    ensures AllDead(rows, original, jobs, ep)
    ensures forall n :: JobOp(n) in OwnRows(original, ep) && JobOp(n) !in OwnRows(rows, ep) && n in jobs ==>
      jobs[n].status == Failed || jobs[n].status == Cancelled
  {
  }

  // ---------- Attempts that leave no record ----------

  /** What the server makes of one submission: nothing, or a job of the given status by the time the
      attempt ends, answered or not. */
  datatype UntrackedCall = Unsent | Sent(status: JobStatus, answered: bool)

  function Untracked(jobs: map<nat, Job>, issued: nat, episode: Option<Episode>, call: UntrackedCall)
    : (map<nat, Job>, nat, Outcome)
  {
    match call
    case Unsent => (jobs, issued, Raised)
    case Sent(status, answered) =>
      (jobs[issued := Job(episode, status)], issued + 1,
       if answered && !IsLive(status) then Done(issued) else Raised)
  }

  function UntrackedRun(jobs: map<nat, Job>, issued: nat, episode: Option<Episode>, calls: seq<UntrackedCall>)
    : (map<nat, Job>, nat)
    decreases |calls|
  {
    if calls == [] then (jobs, issued)
    else
      var (jobs', issued', _) := Untracked(jobs, issued, episode, calls[0]);
      UntrackedRun(jobs', issued', episode, calls[1..])
  }

  /** Without records no bound holds: for every `k`, some `k` attempts leave `k` more live jobs that
      no row names. */
  lemma {:induction false} UntrackedJobsPileUp(rows: map<OpId, Row>, jobs: map<nat, Job>, issued: nat, ep: Episode,
                                               k: nat)
    returns (calls: seq<UntrackedCall>)
    requires RowsOk(rows, issued) && JobsOk(jobs, issued)
    ensures |calls| == k
    ensures |Orphans(rows, UntrackedRun(jobs, issued, Some(ep), calls).0, ep)| == |Orphans(rows, jobs, ep)| + k
    decreases k
  {
    if k == 0 {
      calls := [];
    } else {
      var call := Sent(Waiting, false);
      var jobs' := jobs[issued := Job(Some(ep), Waiting)];
      SubmittedIsOrphan(rows, jobs, ep, issued);
      assert issued !in Orphans(rows, jobs, ep);
      var rest := UntrackedJobsPileUp(rows, jobs', issued + 1, ep, k - 1);
      calls := [call] + rest;
      assert calls[1..] == rest;
    }
  }

  // ---------- Attempts ----------

  class Dispatcher {
    /** Without a repository nothing is recorded and nothing can be resumed. */
    const hasRepository: bool
    var rows: map<OpId, Row>
    var jobs: map<nat, Job>
    /** Ids the server has issued: 0 up to here. */
    var issued: nat
    /** Every question put to the server about a job, with its answer. */
    ghost var asked: seq<Ask>
    /** Every submission attempted: whether the server took the job. */
    ghost var posts: seq<bool>
    /** Every poll of a job: whether it went on to the job's end. */
    ghost var polls: seq<Poll>
    /** For each episode, attempts that died between submitting a job and recording it. */
    ghost var deaths: map<Episode, nat>

    ghost function Lost(ep: Episode): nat
      reads this
    {
      if ep in deaths then deaths[ep] else 0
    }

    predicate Valid()
      reads this
    {
      RowsOk(rows, issued) && JobsOk(jobs, issued)
    }

    /** At most one row, and no more unnamed live jobs than attempts that died unrecorded. */
    ghost predicate Accounted(ep: Episode)
      reads this
    {
      |OwnRows(rows, ep)| <= 1 && |Orphans(rows, jobs, ep)| <= Lost(ep)
    }

    constructor (hasRepository: bool)
      ensures Valid() && this.hasRepository == hasRepository
      ensures forall ep :: Accounted(ep) && Lost(ep) == 0
    {
      this.hasRepository := hasRepository;
      rows, jobs, issued, deaths, asked, posts, polls := map[], map[], 0, map[], [], [], [];
      new;
      forall ep ensures OwnRows(rows, ep) == {} && Orphans(rows, jobs, ep) == {} {
      }
    }

    /** Everything else that happens between two steps of an attempt on `ep`: the server works, and
        rows and jobs of other episodes change freely. */
    method Meanwhile(ep: Episode)
      requires Valid()
      modifies this`rows, this`jobs, this`issued
      ensures Valid() && OwnRows(rows, ep) == OwnRows(old(rows), ep)
      ensures Progresses(old(jobs), jobs, old(issued), ep) && issued >= old(issued)
      ensures Orphans(rows, jobs, ep) <= Orphans(old(rows), old(jobs), ep)
      ensures NamesNoNew(old(rows), rows, old(jobs), ep)
      ensures old(Accounted(ep)) ==> Accounted(ep)
    {
      var rows': map<OpId, Row> := *;
      var jobs': map<nat, Job> := *;
      var more: int := *;
      if more >= 0 && RowsOk(rows', issued + more) && JobsOk(jobs', issued + more)
         && Progresses(jobs, jobs', issued, ep) && OwnRows(rows', ep) == OwnRows(rows, ep)
         && NamesNoNew(rows, rows', jobs, ep)
      {
        ProgressShrinks(rows, rows', jobs, jobs', issued, ep);
        rows, jobs, issued := rows', jobs', issued + more;
      }
    }

    /** Drops a row; dropping a missing one is harmless. */
    method RemovePendingOperation(n: nat)
      requires Valid()
      modifies this`rows
      ensures Valid() && rows == old(rows) - {JobOp(n)}
    {
      rows := rows - {JobOp(n)};
    }

    /** Asks the server about a job. */
    method GetJob(n: nat) returns (answer: Answer)
      modifies this`asked
      ensures asked == old(asked) + [Ask(n, answer)]
      ensures answer.Known? ==> n in jobs && jobs[n].status == answer.status
      ensures answer.Unknown? ==> n !in jobs
    {
      var fails: bool := *;
      answer := if fails then NoAnswer else if n in jobs then Known(jobs[n].status) else Unknown;
      asked := asked + [Ask(n, answer)];
    }

    /** Checks a recorded job. Its row goes exactly when the server answers that it failed, was
        cancelled or is unknown. */
    method CheckJob(ep: Episode, n: nat) returns (found: bool, raised: bool, ghost answer: Answer)
      requires Valid() && Accounted(ep)
      modifies this`rows, this`jobs, this`issued, this`asked
      ensures Valid() && Accounted(ep) && issued >= old(issued) && Progresses(old(jobs), jobs, old(issued), ep)
      ensures asked == old(asked) + [Ask(n, answer)]
      ensures found == SaysUsable(answer) && raised == answer.NoAnswer?
      ensures found ==> n in jobs && IsResumable(jobs[n].status)
      ensures OwnRows(rows, ep) == OwnRows(old(rows), ep) - if SaysGone(answer) then {JobOp(n)} else {}
      ensures SaysGone(answer) ==> IsDead(jobs, n)
    {
      Meanwhile(ep);
      var job := GetJob(n);
      answer := job;
      found, raised := job.Known? && IsResumable(job.status), job.NoAnswer?;
      if !found && !raised {
        DropDeadRow(rows, jobs, ep, n);
        RemovePendingOperation(n);
      }
    }

    /** One step of the scan: `left` are the rows not yet decided. */
    method CheckNext(ep: Episode, n: nat, ghost left: set<OpId>, ghost asks: seq<Ask>)
      returns (found: bool, raised: bool, ghost ask: Ask)
      requires Valid() && Accounted(ep) && DeadJobs(GoneJobs(asks), jobs, issued)
      requires OwnRows(rows, ep) == left && JobOp(n) in left && n < issued
      modifies this`rows, this`jobs, this`issued, this`asked
      ensures Valid() && Accounted(ep) && issued >= old(issued)
      ensures ask.job == n && asked == old(asked) + [ask]
      ensures found == SaysUsable(ask.answer) && raised == ask.answer.NoAnswer?
      ensures DeadJobs(GoneJobs(asks + [ask]), jobs, issued)
      ensures OwnRows(rows, ep) == left - if SaysGone(ask.answer) then {JobOp(n)} else {}
      ensures found ==> n in jobs && IsResumable(jobs[n].status)
    {
      ghost var jobs0, issued0, answer := jobs, issued, Unknown;
      found, raised, answer := CheckJob(ep, n);
      ask := Ask(n, answer);
      DeadStayDead(GoneJobs(asks), jobs0, jobs, issued0, issued, ep);
      OneMoreGone(asks, ask);
    }

    /** What a scan has done so far. */
    ghost predicate Scanned(ep: Episode, own: set<OpId>, asks: seq<Ask>)
      reads this
    {
      && Valid() && Accounted(ep) && DeadJobs(GoneJobs(asks), jobs, issued)
      && OwnRows(rows, ep) == own - GoneRows(asks)
    }

    /** The same, with its questions and its end. */
    method ScanNext(ep: Episode, n: nat, ghost own: set<OpId>, ghost left: set<OpId>, ghost asks: seq<Ask>)
      returns (found: bool, raised: bool, ghost ask: Ask)
      requires Scanned(ep, own, asks) && ScanGoesOn(asks, own)
      requires left == own - GoneRows(asks) && JobOp(n) in left
      modifies this`rows, this`jobs, this`issued, this`asked
      ensures Scanned(ep, own, asks + [ask]) && issued >= old(issued)
      ensures ask.job == n && asked == old(asked) + [ask]
      ensures found ==> n in jobs && IsResumable(jobs[n].status)
      ensures found || raised ==> ScanEnds(asks + [ask], own, if found then Some(n) else None, raised)
      ensures !found && !raised ==>
        ScanGoesOn(asks + [ask], own) && left - {JobOp(n)} == own - GoneRows(asks + [ask])
    {
      assert JobOp(n) in OwnRows(rows, ep) && n < issued;
      found, raised, ask := CheckNext(ep, n, left, asks);
      ScanStep(asks, own, left, ask);
    }

    /** The scan over the episode's rows, in any order, other providers' passed over. It stops at a job
        found or an error, and the rows it drops are those of the jobs that are gone. */
    method ScanRows(ep: Episode, listed: map<OpId, Row>)
      returns (found: Option<nat>, raised: bool, ghost asks: seq<Ask>)
      requires Valid() && Accounted(ep) && rows == listed
      modifies this`rows, this`jobs, this`issued, this`asked
      ensures issued >= old(issued) && Scanned(ep, OwnRows(listed, ep), asks)
      ensures asked == old(asked) + asks && ScanEnds(asks, OwnRows(listed, ep), found, raised)
      ensures found.Some? ==> found.value in jobs && IsResumable(jobs[found.value].status)
    {
      found, raised, asks := None, false, [];
      var ops := set id | id in listed && listed[id].episode == ep && listed[id].provider == Dalston;
      assert ops == OwnRows(listed, ep);
      ghost var own := ops;
      while ops != {}
        invariant issued >= old(issued) && asked == old(asked) + asks
        invariant Scanned(ep, own, asks) && ScanGoesOn(asks, own) && ops == own - GoneRows(asks)
        invariant forall op :: op in own ==> op.JobOp?
        decreases ops
      {
        var op :| op in ops;
        ghost var ask;
        var resumable;
        resumable, raised, ask := ScanNext(ep, op.n, own, ops, asks);
        Associates(old(asked), asks, [ask]);
        asks := asks + [ask];
        if resumable {
          found := Some(op.n);
          return;
        }
        if raised {
          return;
        }
        ops := ops - {op};
      }
      ScanFinishes(asks, own);
    }

    /** Looks for the job an earlier attempt left, asking about each row's job once. Exactly the rows
        whose jobs are unknown, failed or cancelled are dropped. The first job that is waiting, running
        or completed when asked about is found; a call without an answer ends the search and leaves what
        was not yet decided; and without either no row is left. */
    method FindResumableJobId(ep: Episode) returns (found: Option<nat>, raised: bool, ghost asks: seq<Ask>)
      requires Valid() && Accounted(ep)
      modifies this`rows, this`jobs, this`issued, this`asked
      ensures Valid() && Accounted(ep) && issued >= old(issued)
      ensures asked == old(asked) + asks
      ensures forall i :: 0 <= i < |asks| ==> JobOp(asks[i].job) in OwnRows(old(rows), ep)
      ensures OwnRows(rows, ep) == OwnRows(old(rows), ep) - GoneRows(asks)
      ensures AllDead(rows, old(rows), jobs, ep)
      ensures forall n :: JobOp(n) in OwnRows(old(rows), ep) && JobOp(n) !in OwnRows(rows, ep) && n in jobs ==>
        jobs[n].status == Failed || jobs[n].status == Cancelled
      ensures found.Some? <==> AnyUsable(asks)
      ensures found.Some? ==> asks != [] && Last(asks).job == found.value && SaysUsable(Last(asks).answer)
      ensures found.Some? ==>
        && !raised && JobOp(found.value) in OwnRows(rows, ep)
        && found.value in jobs && IsResumable(jobs[found.value].status)
      ensures raised ==> asks != [] && Last(asks).answer == NoAnswer
      ensures found.None? && !raised <==> OwnRows(rows, ep) == {}
    {
      found, raised, asks := ScanRows(ep, rows);
      ScanOutcome(asks, OwnRows(old(rows), ep), found, raised);
      DroppedAreDead(rows, old(rows), jobs, issued, ep, asks);
    }

    method RecordDeath(ep: Episode)
      modifies this`deaths
      ensures Lost(ep) == old(Lost(ep)) + 1 && deaths - {ep} == old(deaths) - {ep}
    {
      deaths := deaths[ep := Lost(ep) + 1];
    }

    /** The server takes a job. */
    method CreateJob(ep: Episode) returns (n: nat)
      requires Valid()
      modifies this`jobs, this`issued
      ensures Valid() && n == old(issued) && issued == n + 1
      ensures n in jobs && jobs[n].episode == Some(ep) && JobOp(n) !in rows
      ensures Orphans(rows, jobs, ep) == Orphans(old(rows), old(jobs), ep) + {n}
    {
      n := issued;
      SubmittedIsOrphan(rows, jobs, ep, n);
      jobs, issued := jobs[n := Job(Some(ep), Waiting)], issued + 1;
    }

    /** The server takes a job; others move on before it is recorded. */
    method Submit(ep: Episode) returns (n: nat)
      requires Valid() && |Orphans(rows, jobs, ep)| <= Lost(ep)
      modifies this`rows, this`jobs, this`issued
      ensures Valid() && n >= old(issued) && n < issued && OwnRows(rows, ep) == OwnRows(old(rows), ep)
      ensures |Orphans(rows, jobs, ep)| <= Lost(ep) + 1 && JobOp(n) !in rows
      ensures |Orphans(rows, jobs, ep) - {n}| <= Lost(ep)
    {
      ghost var known := Orphans(rows, jobs, ep);
      n := CreateJob(ep);
      Meanwhile(ep);
      OneMore(Orphans(rows, jobs, ep), known, n);
    }

    /** Attempts a submission, which may or may not reach the server. */
    method PostJob() returns (lands: bool)
      modifies this`posts
      ensures posts == old(posts) + [lands]
    {
      lands := *;
      posts := posts + [lands];
    }

    /** Submits a job and records it. The call may fail before or after the server has the job, and
        the attempt may die, or the insert fail, before the record is there. */
    method SubmitAndSave(ep: Episode, dies: bool) returns (job: Option<nat>, ghost submitted: bool)
      requires Valid() && Accounted(ep) && OwnRows(rows, ep) == {}
      modifies this`rows, this`jobs, this`issued, this`deaths, this`posts
      ensures Valid() && Accounted(ep) && posts == old(posts) + [submitted]
      ensures job.Some? <==> submitted && !dies
      ensures job.Some? ==> job.value >= old(issued) && OwnRows(rows, ep) == {JobOp(job.value)}
      ensures job.None? ==> OwnRows(rows, ep) == {}
      ensures Lost(ep) == old(Lost(ep)) + if submitted && job.None? then 1 else 0
      ensures deaths - {ep} == old(deaths) - {ep}
    {
      job, submitted := None, false;
      var lands := PostJob();
      if !lands {
        return;
      }
      submitted := true;
      var n := Submit(ep);
      if dies {
        RecordDeath(ep);
      } else {
        SavedIsNamed(rows, jobs, ep, n);
        rows := rows[JobOp(n) := Row(Dalston, ep)];
        job := Some(n);
      }
    }

    /** Polls the job until it has ended; the poll may fail at any time, and a purged job is an error. */
    method WaitForCompletion(n: nat) returns (ended: bool)
      modifies this`polls
      ensures polls == old(polls) + [Poll(n, ended)]
      ensures ended ==>
        && n in jobs
        && (jobs[n].status == Completed || jobs[n].status == Failed || jobs[n].status == Cancelled)
    {
      ended := *;
      ended := ended && n in jobs && !IsLive(jobs[n].status);
      polls := polls + [Poll(n, ended)];
    }

    /** Polls the job and drops its row once the poll has ended; a poll failure, or a death before the
        drop, leaves the row for the next attempt. */
    method PollAndRemove(ep: Episode, n: nat, dies: bool) returns (done: bool, ghost poll: Poll)
      requires Valid() && Accounted(ep) && OwnRows(rows, ep) == {JobOp(n)}
      modifies this`rows, this`jobs, this`issued, this`polls
      ensures Valid() && Accounted(ep)
      ensures polls == old(polls) + [poll] && poll.job == n && done == (poll.ended && !dies)
      ensures OwnRows(rows, ep) == if done then {} else {JobOp(n)}
    {
      Meanwhile(ep);
      var ended := WaitForCompletion(n);
      Meanwhile(ep);
      done, poll := ended && !dies, Poll(n, ended);
      if done {
        DropDeadRow(rows, jobs, ep, n);
        RemovePendingOperation(n);
      }
    }

    /** Without a repository or an episode id nothing is looked up or recorded: every attempt submits
        a job of its own, and a live one left behind is one more that no row names. */
    method TranscribeUntracked(episode: Option<Episode>) returns (outcome: Outcome, call: UntrackedCall)
      requires Valid() && (!hasRepository || episode.None?)
      modifies this`jobs, this`issued
      ensures Valid() && rows == old(rows)
      ensures (jobs, issued, outcome) == Untracked(old(jobs), old(issued), episode, call)
      ensures outcome.Done? ==> outcome.job == old(issued)
      ensures forall ep :: old(Orphans(rows, jobs, ep)) <= Orphans(rows, jobs, ep)
      ensures forall ep :: Orphans(rows, jobs, ep) - {old(issued)} <= old(Orphans(rows, jobs, ep))
      ensures forall ep :: episode != Some(ep) ==> Orphans(rows, jobs, ep) == old(Orphans(rows, jobs, ep))
      ensures outcome.Done? ==> forall ep :: Orphans(rows, jobs, ep) == old(Orphans(rows, jobs, ep))
    {
      outcome, call := Raised, Unsent;
      var lands: bool := *;
      if lands {
        var n := issued;
        var status: JobStatus := *;
        jobs, issued := jobs[n := Job(episode, status)], issued + 1;
        var answers: bool := *;
        call := Sent(status, answers);
        if answers && !IsLive(status) {
          outcome := Done(n);
        }
      }
    }

    /** The job to poll: the one found, or else, with no row left, one submitted and recorded. */
    method ObtainJob(ep: Episode, dies: bool) returns (job: Option<nat>, ghost submitted: bool, ghost asks: seq<Ask>)
      requires Valid() && Accounted(ep)
      modifies this`rows, this`jobs, this`issued, this`deaths, this`asked, this`posts
      ensures Valid() && Accounted(ep) && deaths - {ep} == old(deaths) - {ep}
      ensures Lost(ep) == old(Lost(ep)) + if submitted && dies then 1 else 0
      ensures asked == old(asked) + asks
      ensures forall i :: 0 <= i < |asks| ==> JobOp(asks[i].job) in OwnRows(old(rows), ep)
      ensures posts == if OwnRows(old(rows), ep) == GoneRows(asks) then old(posts) + [submitted] else old(posts)
      ensures submitted ==> OwnRows(old(rows), ep) == GoneRows(asks)
      ensures AnyUsable(asks) ==> posts == old(posts)
      ensures job.Some? <==> AnyUsable(asks) || (submitted && !dies)
      ensures job.Some? ==>
        && OwnRows(rows, ep) == {JobOp(job.value)}
        && if submitted then job.value >= old(issued) else asks != [] && job.value == Last(asks).job
    {
      var raised;
      job, raised, asks := FindResumableJobId(ep);
      submitted := false;
      if raised {
        return;
      }
      if job.None? {
        job, submitted := SubmitAndSave(ep, dies);
      } else {
        OnlyRow(rows, ep, job.value);
      }
    }

    /** One attempt, whatever happens during it. The episode has at most one row and no more unnamed
        live jobs than attempts that died unrecorded. */
    method Transcribe(ep: Episode, fate: Deaths)
      returns (outcome: Outcome, ghost submitted: bool, ghost asks: seq<Ask>, ghost poll: Option<Poll>)
      requires hasRepository && Valid() && Accounted(ep)
      modifies this`rows, this`jobs, this`issued, this`deaths, this`asked, this`posts, this`polls
      ensures Valid() && Accounted(ep) && |LiveJobs(jobs, ep)| <= 1 + Lost(ep)
      ensures deaths - {ep} == old(deaths) - {ep}
      ensures Lost(ep) == old(Lost(ep)) + if submitted && fate.beforeSave then 1 else 0
      // Only the jobs of the episode's rows are asked about.
      ensures asked == old(asked) + asks
      ensures forall i :: 0 <= i < |asks| ==> JobOp(asks[i].job) in OwnRows(old(rows), ep)
      // One submission when every one of them is unknown, failed or cancelled, and none otherwise; so a
      // job that is waiting, running or completed when asked about is never submitted again.
      ensures posts == if OwnRows(old(rows), ep) == GoneRows(asks) then old(posts) + [submitted] else old(posts)
      ensures submitted ==> OwnRows(old(rows), ep) == GoneRows(asks)
      ensures AnyUsable(asks) ==> posts == old(posts)
      // The job found, or else the one submitted and recorded, is polled.
      ensures polls == old(polls) + if poll.Some? then [poll.value] else []
      ensures poll.Some? <==> AnyUsable(asks) || (submitted && !fate.beforeSave)
      ensures poll.Some? ==>
        if submitted then poll.value.job >= old(issued) else asks != [] && poll.value.job == Last(asks).job
      // The attempt succeeds when the poll ends and the row is dropped.
      ensures outcome ==
        if poll.Some? && poll.value.ended && !fate.beforeDrop then Done(poll.value.job) else Raised
      ensures outcome.Done? ==> OwnRows(rows, ep) == {}
    {
      outcome, submitted, poll := Raised, false, None;
      var job;
      job, submitted, asks := ObtainJob(ep, fate.beforeSave);
      if job.Some? {
        var done;
        ghost var polled;
        done, polled := PollAndRemove(ep, job.value, fate.beforeDrop);
        poll := Some(polled);
        if done {
          outcome := Done(job.value);
        }
      }
      LiveJobsAreBounded(rows, jobs, ep, Lost(ep));
    }
  }

  lemma OnlyRow(rows: map<OpId, Row>, ep: Episode, n: nat)
    requires |OwnRows(rows, ep)| <= 1 && JobOp(n) in OwnRows(rows, ep)
    ensures OwnRows(rows, ep) == {JobOp(n)}
  {
    forall id | id in OwnRows(rows, ep) ensures id == JobOp(n) {
      if id != JobOp(n) {
        SubsetSize({id, JobOp(n)}, OwnRows(rows, ep));
      }
    }
  }

  /** Any number of attempts on one episode, each dying wherever it likes: the jobs the server works
      on at once for the episode are at most one more than the attempts that died unrecorded. */
  method RunAttempts(d: Dispatcher, ep: Episode, attempts: nat)
    requires d.hasRepository && d.Valid() && d.Accounted(ep)
    modifies d
    ensures d.Valid() && d.Accounted(ep)
    ensures |LiveJobs(d.jobs, ep)| <= 1 + d.Lost(ep)
    ensures old(d.Lost(ep)) <= d.Lost(ep) <= old(d.Lost(ep)) + attempts
  {
    for k := 0 to attempts
      invariant d.Valid() && d.Accounted(ep)
      invariant old(d.Lost(ep)) <= d.Lost(ep) <= old(d.Lost(ep)) + k
    {
      var fate: Deaths := *;
      var outcome, submitted, asks, poll := d.Transcribe(ep, fate);
      d.Meanwhile(ep);
    }
    LiveJobsAreBounded(d.rows, d.jobs, ep, d.Lost(ep));
  }
}
