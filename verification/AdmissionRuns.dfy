/** What every run of submissions, workers, cancellations, retries and sweeps keeps. */
module AdmissionRuns {
  import opened Prelude
  import opened Admission

  datatype Step =
    | Submit(actor: nat, key: string, request: Request, now: int)
    | CountMine
    | CountAll
    | Add(created: int)
    | Abandon
    | Begin(id: nat, now: int, sourceActive: bool)
    | FailForNow(id: nat, now: int, backoff: nat)
    | FailForGood(id: nat, now: int)
    | Finish(id: nat, now: int)
    | Leave(id: nat)
    | Sweep(id: nat, now: int)
    | Cancel(id: nat, now: int)
    | Retry(id: nat, now: int)

  predicate OnSubmission(step: Step) {
    step.Submit? || step.CountMine? || step.CountAll? || step.Add? || step.Abandon?
  }

  // A step that ends an attempt. One transient failure does not: the error it raises can be caught
  // and recorded once more before the attempt leaves.
  predicate Settles(step: Step) {
    step.FailForGood? || step.Finish? || step.Leave?
  }

  // The lock admits one submission at a time and its statements come in order; a worker reports on an
  // attempt it began. Every other step may happen at any moment.
  predicate CanDo(config: Config, s: Imports, step: Step) {
    match step
    case Submit(_, _, request, _) => s.lock.None? && Asked(config, request)
    case CountMine => s.lock.Some? && s.lock.value.stage == Rated
    case CountAll => s.lock.Some? && s.lock.value.stage == ActorCounted
    case Add(created) => s.lock.Some? && s.lock.value.stage == Cleared && created >= s.lock.value.now
    case Abandon => s.lock.Some?
    case _ => step.id < |s.jobs| && (step.FailForNow? || Settles(step) ==> s.workers[step.id] > 0)
  }

  function SubmissionStep(config: Config, s: Imports, step: Step): Imports
    requires CanDo(config, s, step) && OnSubmission(step)
  {
    match step
    case Submit(actor, key, request, now) => Enter(config, s, actor, key, request, now)
    case CountMine => CountActor(config, s)
    case CountAll => CountGlobal(config, s)
    case Add(created) => Insert(s, created)
    case _ => s.(lock := None)
  }

  function JobAfter(config: Config, job: Job, step: Step): Job
    requires !OnSubmission(step)
  {
    match step
    case Begin(_, now, sourceActive) => Begun(config, job, now, sourceActive)
    case FailForNow(_, now, backoff) => Transient(config, job, now, backoff)
    case FailForGood(_, now) => MarkFailed(job, now)
    case Finish(_, now) => Persisted(config, job, now)
    case Sweep(_, now) => DispatchFailed(job, now)
    case Cancel(_, now) => CancelledJob(job, now)
    case Retry(_, now) => Retried(config, job, now)
    case _ => job
  }

  function Do(config: Config, s: Imports, step: Step): Imports
    requires CanDo(config, s, step)
  {
    if OnSubmission(step) then SubmissionStep(config, s, step)
    else
      var before := s.jobs[step.id];
      var after := JobAfter(config, before, step);
      var workers :=
        if step.Begin? && after.attempts > before.attempts then s.workers + multiset{step.id}
        else if Settles(step) then s.workers - multiset{step.id}
        else s.workers;
      s.(jobs := s.jobs[step.id := after], workers := workers)
  }

  // ---------------------------------------------------------------------------------------------
  // The invariant
  // ---------------------------------------------------------------------------------------------

  ghost predicate UniqueKeys(jobs: seq<Job>) {
    forall i, j | 0 <= i < j < |jobs| :: !SamePair(jobs[i].ticket, jobs[j].ticket.actor, jobs[j].ticket.key)
  }

  // Active jobs that have never come back from failure.
  function AnyFresh(): Job -> bool {
    (job: Job) => IsActive(job.status) && !job.revived
  }

  function FreshFor(actor: nat): Job -> bool {
    (job: Job) => IsActive(job.status) && !job.revived && job.ticket.actor == actor
  }

  ghost predicate Quotas(config: Config, jobs: seq<Job>) {
    && Count(jobs, AnyFresh()) <= config.globalLimit
    && forall actor: nat :: Count(jobs, FreshFor(actor)) <= config.actorLimit
  }

  // At its admission, the earlier jobs of its actor left room in the window that ended there.
  predicate RatedAfter(config: Config, earlier: seq<Job>, ticket: Ticket) {
    && ticket.admitted <= ticket.created
    && Count(earlier, CreatedSince(ticket.actor, ticket.admitted - config.window)) < config.rateLimit
  }

  ghost predicate Rates(config: Config, jobs: seq<Job>) {
    forall k | 0 <= k < |jobs| :: RatedAfter(config, jobs[..k], jobs[k].ticket)
  }

  ghost predicate Attempts(config: Config, jobs: seq<Job>) {
    forall job <- jobs :: job.attempts <= config.maxAttempts && Genuine(config, job.ticket)
  }

  // What the statements executed so far have established for the submission holding the lock.
  ghost predicate Admitting(config: Config, jobs: seq<Job>, sub: Submission) {
    && Find(jobs, sub.actor, sub.key).None? && Asked(config, sub.request)
    && Count(jobs, CreatedSince(sub.actor, sub.now - config.window)) < config.rateLimit
    && (sub.stage != Rated ==> Count(jobs, FreshFor(sub.actor)) < config.actorLimit)
    && (sub.stage == Cleared ==> Count(jobs, AnyFresh()) < config.globalLimit)
  }

  ghost predicate Logged(config: Config, s: Imports) {
    forall a <- s.log ::
      a.id < |s.jobs| && SamePair(s.jobs[a.id].ticket, a.actor, a.key) && Asked(config, a.request)
      && Matches(s.jobs[a.id].ticket.stored, a.request)
  }

  ghost predicate Table(config: Config, jobs: seq<Job>) {
    UniqueKeys(jobs) && Quotas(config, jobs) && Rates(config, jobs) && Attempts(config, jobs)
  }

  ghost predicate Inv(config: Config, s: Imports) {
    Table(config, s.jobs) && (s.lock.Some? ==> Admitting(config, s.jobs, s.lock.value)) && Logged(config, s)
  }

  // ---------------------------------------------------------------------------------------------
  // Counting
  // ---------------------------------------------------------------------------------------------

  lemma {:induction false} CountMono(jobs: seq<Job>, f: Job -> bool, g: Job -> bool)
    requires forall job <- jobs :: f(job) ==> g(job)
    ensures Count(jobs, f) <= Count(jobs, g)
  {
    if jobs != [] { CountMono(jobs[..|jobs| - 1], f, g); }
  }

  // Rewriting one row that was not counted, or still is, does not raise the count.
  lemma {:induction false} CountUpdate(jobs: seq<Job>, id: nat, job: Job, f: Job -> bool)
    requires id < |jobs| && (f(job) ==> f(jobs[id]))
    ensures Count(jobs[id := job], f) <= Count(jobs, f)
    ensures f(job) == f(jobs[id]) ==> Count(jobs[id := job], f) == Count(jobs, f)
  {
    var last := |jobs| - 1;
    if id == last {
      assert jobs[id := job][..last] == jobs[..last];
    } else {
      assert jobs[id := job][..last] == jobs[..last][id := job];
      CountUpdate(jobs[..last], id, job, f);
    }
  }

  lemma CountAdd(jobs: seq<Job>, job: Job, f: Job -> bool)
    ensures Count(jobs + [job], f) == Count(jobs, f) + if f(job) then 1 else 0
  {
  }

  lemma FreshAreActive(jobs: seq<Job>, actor: nat)
    ensures Count(jobs, AnyFresh()) <= Count(jobs, AnyActive())
    ensures Count(jobs, FreshFor(actor)) <= Count(jobs, ActiveFor(actor))
  {
  }

  // ---------------------------------------------------------------------------------------------
  // Submissions keep the invariant
  // ---------------------------------------------------------------------------------------------

  lemma CountActorKeeps(config: Config, s: Imports)
    requires Inv(config, s) && s.lock.Some? && s.lock.value.stage == Rated
    ensures Inv(config, CountActor(config, s))
  {
    FreshAreActive(s.jobs, s.lock.value.actor);
  }

  lemma CountGlobalKeeps(config: Config, s: Imports)
    requires Inv(config, s) && s.lock.Some? && s.lock.value.stage == ActorCounted
    ensures Inv(config, CountGlobal(config, s))
  {
    FreshAreActive(s.jobs, s.lock.value.actor);
    var t := CountGlobal(config, s);
    assert t.jobs == s.jobs && t.log == s.log;
    assert t.lock.Some? ==> Admitting(config, s.jobs, t.lock.value);
  }

  lemma AddKeepsQuotas(config: Config, jobs: seq<Job>, sub: Submission, created: int)
    requires Quotas(config, jobs) && Admitting(config, jobs, sub) && sub.stage == Cleared
    ensures Quotas(config, jobs + [NewJob(sub, created)])
  {
  }

  lemma AddKeepsRates(config: Config, jobs: seq<Job>, sub: Submission, created: int)
    requires Rates(config, jobs) && Admitting(config, jobs, sub) && created >= sub.now
    ensures Rates(config, jobs + [NewJob(sub, created)])
  {
    var more := jobs + [NewJob(sub, created)];
    forall k | 0 <= k < |more| ensures RatedAfter(config, more[..k], more[k].ticket) {
      if k < |jobs| {
        assert more[..k] == jobs[..k] && RatedAfter(config, jobs[..k], jobs[k].ticket);
      } else {
        assert more[..k] == jobs;
      }
    }
  }

  lemma AddKeepsKeys(config: Config, jobs: seq<Job>, sub: Submission, created: int)
    requires UniqueKeys(jobs) && Attempts(config, jobs)
    requires Find(jobs, sub.actor, sub.key).None? && Asked(config, sub.request)
    ensures UniqueKeys(jobs + [NewJob(sub, created)]) && Attempts(config, jobs + [NewJob(sub, created)])
  {
  }

  lemma AddKeepsTable(config: Config, jobs: seq<Job>, sub: Submission, created: int)
    requires Table(config, jobs) && Admitting(config, jobs, sub) && sub.stage == Cleared && created >= sub.now
    ensures Table(config, jobs + [NewJob(sub, created)])
  {
    AddKeepsKeys(config, jobs, sub, created);
    AddKeepsQuotas(config, jobs, sub, created);
    AddKeepsRates(config, jobs, sub, created);
  }

  // The unique index never fires: under the lock the key is still free when the row is added.
  lemma IndexNeverViolated(config: Config, s: Imports, created: int)
    requires Inv(config, s) && CanDo(config, s, Add(created))
    ensures var sub := s.lock.value;
            Insert(s, created) == s.(
              jobs := s.jobs + [NewJob(sub, created)], lock := None,
              log := s.log + [Acceptance(sub.actor, sub.key, sub.request, |s.jobs|)])
  {
  }

  // An answer logged for a job that stands for its request.
  lemma LogKeeps(config: Config, s: Imports, t: Imports, a: Acceptance)
    requires Logged(config, s) && s.jobs <= t.jobs && t.log == s.log + [a] && Asked(config, a.request)
    requires a.id < |t.jobs| && SamePair(t.jobs[a.id].ticket, a.actor, a.key)
    requires Matches(t.jobs[a.id].ticket.stored, a.request)
    ensures Logged(config, t)
  {
    forall b | b in t.log
      ensures b.id < |t.jobs| && SamePair(t.jobs[b.id].ticket, b.actor, b.key) && Asked(config, b.request)
      ensures Matches(t.jobs[b.id].ticket.stored, b.request)
    {
      assert b in s.log || b == a;
    }
  }

  lemma AnswerKeeps(config: Config, s: Imports, actor: nat, key: string, request: Request, id: nat)
    requires Inv(config, s) && id < |s.jobs| && SamePair(s.jobs[id].ticket, actor, key) && Asked(config, request)
    ensures Inv(config, Answer(s, actor, key, request, id))
  {
    if Matches(s.jobs[id].ticket.stored, request) {
      LogKeeps(config, s, Answer(s, actor, key, request, id), Acceptance(actor, key, request, id));
    }
  }

  lemma AddKeeps(config: Config, s: Imports, created: int)
    requires Inv(config, s) && CanDo(config, s, Add(created))
    ensures Inv(config, Insert(s, created))
  {
    var sub := s.lock.value;
    IndexNeverViolated(config, s, created);
    AddKeepsTable(config, s.jobs, sub, created);
    MatchesExactly(sub.request, sub.request);
    LogKeeps(config, s, Insert(s, created), Acceptance(sub.actor, sub.key, sub.request, |s.jobs|));
  }

  lemma SubmitKeeps(config: Config, s: Imports, actor: nat, key: string, request: Request, now: int)
    requires Inv(config, s) && s.lock.None? && Asked(config, request)
    ensures Inv(config, Enter(config, s, actor, key, request, now))
  {
    match Find(s.jobs, actor, key)
    case Some(id) => AnswerKeeps(config, s, actor, key, request, id);
    case None => EnterKeeps(config, s, actor, key, request, now);
  }

  lemma EnterKeeps(config: Config, s: Imports, actor: nat, key: string, request: Request, now: int)
    requires Inv(config, s) && s.lock.None? && Asked(config, request) && Find(s.jobs, actor, key).None?
    ensures Inv(config, Enter(config, s, actor, key, request, now))
  {
  }

  lemma SubmissionKeeps(config: Config, s: Imports, step: Step)
    requires Inv(config, s) && CanDo(config, s, step) && OnSubmission(step)
    ensures Inv(config, SubmissionStep(config, s, step))
  {
    match step
    case Submit(actor, key, request, now) => SubmitKeeps(config, s, actor, key, request, now);
    case CountMine => CountActorKeeps(config, s);
    case CountAll => CountGlobalKeeps(config, s);
    case Add(created) => AddKeeps(config, s, created);
    case _ =>
  }

  // ---------------------------------------------------------------------------------------------
  // So does everything that happens to one job
  // ---------------------------------------------------------------------------------------------

  lemma JobKeeps(config: Config, job: Job, step: Step)
    requires !OnSubmission(step) && job.attempts <= config.maxAttempts && Genuine(config, job.ticket)
    ensures var after := JobAfter(config, job, step);
      && after.ticket == job.ticket && after.attempts <= config.maxAttempts
      && (AnyFresh()(after) ==> AnyFresh()(job))
  {
  }

  lemma UpdateKeepsQuotas(config: Config, jobs: seq<Job>, id: nat, job: Job)
    requires Quotas(config, jobs) && id < |jobs|
    requires job.ticket == jobs[id].ticket && (AnyFresh()(job) ==> AnyFresh()(jobs[id]))
    ensures Quotas(config, jobs[id := job])
    ensures Count(jobs[id := job], AnyFresh()) <= Count(jobs, AnyFresh())
    ensures forall actor: nat :: Count(jobs[id := job], FreshFor(actor)) <= Count(jobs, FreshFor(actor))
  {
    CountUpdate(jobs, id, job, AnyFresh());
    forall actor: nat ensures Count(jobs[id := job], FreshFor(actor)) <= Count(jobs, FreshFor(actor)) {
      CountUpdate(jobs, id, job, FreshFor(actor));
    }
  }

  // Creation times stay, so the rate query sees what it saw.
  lemma UpdateKeepsRate(jobs: seq<Job>, id: nat, job: Job, actor: nat, since: int)
    requires id < |jobs| && job.ticket == jobs[id].ticket
    ensures Count(jobs[id := job], CreatedSince(actor, since)) == Count(jobs, CreatedSince(actor, since))
  {
    CountUpdate(jobs, id, job, CreatedSince(actor, since));
  }

  lemma UpdateKeepsRates(config: Config, jobs: seq<Job>, id: nat, job: Job)
    requires Rates(config, jobs) && id < |jobs| && job.ticket == jobs[id].ticket
    ensures Rates(config, jobs[id := job])
  {
    var after := jobs[id := job];
    forall k | 0 <= k < |after| ensures RatedAfter(config, after[..k], after[k].ticket) {
      assert RatedAfter(config, jobs[..k], jobs[k].ticket);
      if k <= id {
        assert after[..k] == jobs[..k];
      } else {
        assert after[..k] == jobs[..k][id := job];
        UpdateKeepsRate(jobs[..k], id, job, jobs[k].ticket.actor, jobs[k].ticket.admitted - config.window);
      }
    }
  }

  lemma UpdateKeepsTable(config: Config, jobs: seq<Job>, id: nat, job: Job)
    requires Table(config, jobs) && id < |jobs| && job.attempts <= config.maxAttempts
    requires job.ticket == jobs[id].ticket && (AnyFresh()(job) ==> AnyFresh()(jobs[id]))
    ensures Table(config, jobs[id := job])
  {
    UpdateKeepsQuotas(config, jobs, id, job);
    UpdateKeepsRates(config, jobs, id, job);
  }

  lemma UpdateKeepsAdmitting(config: Config, jobs: seq<Job>, id: nat, job: Job, sub: Submission)
    requires Quotas(config, jobs) && Admitting(config, jobs, sub) && id < |jobs|
    requires job.ticket == jobs[id].ticket && (AnyFresh()(job) ==> AnyFresh()(jobs[id]))
    ensures Admitting(config, jobs[id := job], sub)
  {
    UpdateKeepsQuotas(config, jobs, id, job);
    UpdateKeepsRate(jobs, id, job, sub.actor, sub.now - config.window);
  }

  lemma UpdateKeepsLog(config: Config, s: Imports, t: Imports, id: nat, job: Job)
    requires Logged(config, s) && id < |s.jobs| && job.ticket == s.jobs[id].ticket
    requires t.jobs == s.jobs[id := job] && t.log == s.log
    ensures Logged(config, t)
  {
  }

  lemma JobStepKeeps(config: Config, s: Imports, step: Step)
    requires Inv(config, s) && CanDo(config, s, step) && !OnSubmission(step)
    ensures Inv(config, Do(config, s, step))
  {
    var after := JobAfter(config, s.jobs[step.id], step);
    JobKeeps(config, s.jobs[step.id], step);
    UpdateKeepsTable(config, s.jobs, step.id, after);
    UpdateKeepsLog(config, s, Do(config, s, step), step.id, after);
    if s.lock.Some? { UpdateKeepsAdmitting(config, s.jobs, step.id, after, s.lock.value); }
  }

  lemma StepKeeps(config: Config, s: Imports, step: Step)
    requires Inv(config, s) && CanDo(config, s, step)
    ensures Inv(config, Do(config, s, step))
  {
    if OnSubmission(step) { SubmissionKeeps(config, s, step); } else { JobStepKeeps(config, s, step); }
  }
}
