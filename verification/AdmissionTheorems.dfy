/** Quotas, rate windows and idempotency over whole runs, and where the quotas give way. */
module AdmissionTheorems {
  import opened Prelude
  import opened Admission
  import opened AdmissionRuns

  const START := Imports([], None, multiset{}, [])

  ghost predicate Run(config: Config, states: seq<Imports>, steps: seq<Step>) {
    && |states| == |steps| + 1 && states[0] == START
    && forall i | 0 <= i < |steps| ::
         CanDo(config, states[i], steps[i]) && states[i + 1] == Do(config, states[i], steps[i])
  }

  lemma {:induction false} RunInvariant(config: Config, states: seq<Imports>, steps: seq<Step>, i: nat)
    requires Run(config, states, steps) && i < |states|
    ensures Inv(config, states[i])
  {
    if i > 0 {
      RunInvariant(config, states, steps, i - 1);
      StepKeeps(config, states[i - 1], steps[i - 1]);
    }
  }

  // ---------------------------------------------------------------------------------------------
  // Quotas
  // ---------------------------------------------------------------------------------------------

  function Returned(): Job -> bool {
    (job: Job) => IsActive(job.status) && job.revived
  }

  function ReturnedFor(actor: nat): Job -> bool {
    (job: Job) => IsActive(job.status) && job.revived && job.ticket.actor == actor
  }

  lemma {:induction false} CountSplit(jobs: seq<Job>, whole: Job -> bool, part: Job -> bool, rest: Job -> bool)
    requires forall job <- jobs :: whole(job) ==> part(job) || rest(job)
    ensures Count(jobs, whole) <= Count(jobs, part) + Count(jobs, rest)
  {
    if jobs != [] { CountSplit(jobs[..|jobs| - 1], whole, part, rest); }
  }

  // In every run, an actor's active jobs exceed the limit by no more than those that had already
  // failed and came back; and so for all actors together.
  lemma QuotasHold(config: Config, states: seq<Imports>, steps: seq<Step>, i: nat, actor: nat)
    requires Run(config, states, steps) && i < |states|
    ensures var jobs := states[i].jobs;
      && Count(jobs, ActiveFor(actor)) <= config.actorLimit + Count(jobs, ReturnedFor(actor))
      && Count(jobs, AnyActive()) <= config.globalLimit + Count(jobs, Returned())
  {
    RunInvariant(config, states, steps, i);
    CountSplit(states[i].jobs, ActiveFor(actor), FreshFor(actor), ReturnedFor(actor));
    CountSplit(states[i].jobs, AnyActive(), AnyFresh(), Returned());
  }

  // The only ways back from failure: a manual retry, and the transient failure of an attempt that
  // outlived its job.
  predicate Revives(config: Config, job: Job, step: Step) {
    job.status == Failed && (step.Retry? || (step.FailForNow? && job.attempts < config.maxAttempts))
  }

  lemma RevivesExactly(config: Config, job: Job, step: Step)
    requires !OnSubmission(step)
    ensures !IsActive(job.status) && IsActive(JobAfter(config, job, step).status) <==> Revives(config, job, step)
    ensures JobAfter(config, job, step).revived <==> job.revived || Revives(config, job, step)
  {
  }

  ghost predicate NoRevival(config: Config, s: Imports, step: Step)
    requires CanDo(config, s, step)
  {
    OnSubmission(step) || !Revives(config, s.jobs[step.id], step)
  }

  ghost predicate NeverRevived(jobs: seq<Job>) {
    forall job <- jobs :: !job.revived
  }

  lemma {:induction false} NoneReturned(config: Config, states: seq<Imports>, steps: seq<Step>, i: nat)
    requires Run(config, states, steps) && i < |states|
    requires forall j | 0 <= j < |steps| :: NoRevival(config, states[j], steps[j])
    ensures NeverRevived(states[i].jobs)
  {
    if i > 0 {
      NoneReturned(config, states, steps, i - 1);
      var s, step := states[i - 1], steps[i - 1];
      if !OnSubmission(step) {
        assert NoRevival(config, s, step);
        RevivesExactly(config, s.jobs[step.id], step);
      }
    }
  }

  lemma {:induction false} CountNone(jobs: seq<Job>, f: Job -> bool)
    requires forall job <- jobs :: !f(job)
    ensures Count(jobs, f) == 0
  {
    if jobs != [] { CountNone(jobs[..|jobs| - 1], f); }
  }

  // Without such a return, the limits themselves hold throughout.
  lemma LimitsHoldWithoutRevival(config: Config, states: seq<Imports>, steps: seq<Step>, i: nat, actor: nat)
    requires Run(config, states, steps) && i < |states|
    requires forall j | 0 <= j < |steps| :: NoRevival(config, states[j], steps[j])
    ensures Count(states[i].jobs, ActiveFor(actor)) <= config.actorLimit
    ensures Count(states[i].jobs, AnyActive()) <= config.globalLimit
  {
    QuotasHold(config, states, steps, i, actor);
    NoneReturned(config, states, steps, i);
    CountNone(states[i].jobs, ReturnedFor(actor));
    CountNone(states[i].jobs, Returned());
  }

  // ---------------------------------------------------------------------------------------------
  // Rate windows
  // ---------------------------------------------------------------------------------------------

  function CreatedWithin(actor: nat, from: int, to: int): Job -> bool {
    (job: Job) => job.ticket.actor == actor && from <= job.ticket.created <= to
  }

  lemma {:induction false} WindowBound(config: Config, jobs: seq<Job>, actor: nat, from: int)
    requires Rates(config, jobs)
    ensures Count(jobs, CreatedWithin(actor, from, from + config.window)) <= config.rateLimit
  {
    if jobs != [] {
      var earlier, ticket := jobs[..|jobs| - 1], jobs[|jobs| - 1].ticket;
      assert RatedAfter(config, earlier, ticket);
      if ticket.actor == actor && from <= ticket.created <= from + config.window {
        var since := ticket.admitted - config.window;
        CountMono(earlier, CreatedWithin(actor, from, from + config.window), CreatedSince(actor, since));
      } else {
        forall k | 0 <= k < |earlier| ensures RatedAfter(config, earlier[..k], earlier[k].ticket) {
          assert earlier[..k] == jobs[..k] && RatedAfter(config, jobs[..k], jobs[k].ticket);
        }
        WindowBound(config, earlier, actor, from);
      }
    }
  }

  // No window of the configured length, both ends included, ever holds more new jobs of one actor
  // than the rate limit.
  lemma EveryWindowHolds(config: Config, states: seq<Imports>, steps: seq<Step>, i: nat, actor: nat, from: int)
    requires Run(config, states, steps) && i < |states|
    ensures Count(states[i].jobs, CreatedWithin(actor, from, from + config.window)) <= config.rateLimit
  {
    RunInvariant(config, states, steps, i);
    WindowBound(config, states[i].jobs, actor, from);
  }

  // ---------------------------------------------------------------------------------------------
  // Idempotency
  // ---------------------------------------------------------------------------------------------

  // Every ticket was made for some request.
  ghost predicate Made(config: Config, jobs: seq<Job>, requests: seq<Request>) {
    |requests| == |jobs| && forall k | 0 <= k < |jobs| ::
      Asked(config, requests[k]) && jobs[k].ticket.stored == StoredFor(requests[k])
  }

  lemma TicketsKept(config: Config, s: Imports, step: Step)
    requires Inv(config, s) && CanDo(config, s, step) && !step.Add?
    ensures var after := Do(config, s, step).jobs;
            |after| == |s.jobs| && forall k | 0 <= k < |after| :: after[k].ticket == s.jobs[k].ticket
  {
    if !OnSubmission(step) {
      assert s.jobs[step.id] in s.jobs;
      JobKeeps(config, s.jobs[step.id], step);
    }
  }

  lemma AddMade(config: Config, s: Imports, created: int, requests: seq<Request>)
    requires Inv(config, s) && CanDo(config, s, Add(created)) && Made(config, s.jobs, requests)
    ensures Made(config, Insert(s, created).jobs, requests + [s.lock.value.request])
  {
    IndexNeverViolated(config, s, created);
  }

  lemma KeptMade(config: Config, s: Imports, step: Step, requests: seq<Request>)
    requires Inv(config, s) && CanDo(config, s, step) && !step.Add? && Made(config, s.jobs, requests)
    ensures Made(config, Do(config, s, step).jobs, requests)
  {
    TicketsKept(config, s, step);
  }

  lemma {:induction false} EveryJobWasMade(config: Config, states: seq<Imports>, steps: seq<Step>, i: nat)
    returns (requests: seq<Request>)
    requires Run(config, states, steps) && i < |states|
    ensures Made(config, states[i].jobs, requests)
  {
    if i == 0 {
      requests := [];
    } else {
      requests := EveryJobWasMade(config, states, steps, i - 1);
      RunInvariant(config, states, steps, i - 1);
      var s, step := states[i - 1], steps[i - 1];
      if step.Add? {
        AddMade(config, s, step.created, requests);
        requests := requests + [s.lock.value.request];
      } else {
        KeptMade(config, s, step, requests);
      }
    }
  }

  // A new job is queued, with no attempt, for its own request and no other the endpoints admit, under the
  // source it names.
  lemma NewJobIsItsRequests(config: Config, sub: Submission, created: int, other: Request)
    requires Separate(config) && Asked(config, sub.request) && Asked(config, other)
    ensures var job := NewJob(sub, created);
      && job.status == Queued && job.attempts == 0 && SamePair(job.ticket, sub.actor, sub.key)
      && job.ticket.created == created && (Matches(job.ticket.stored, other) <==> other == sub.request)
      && match sub.request
         case Page(url) => job.ticket.source == None && job.ticket.stored.submittedUrl == url
         case Entry(source, _, _, _, _) => job.ticket.source == Some(source)
  {
    OwnRequestOnly(config, sub.request, other);
  }

  // Two accepted answers under one actor and key name the same job and answer the same request.
  lemma OneJobOneRequest(config: Config, states: seq<Imports>, steps: seq<Step>, i: nat, a: Acceptance, b: Acceptance)
    requires Separate(config)
    requires Run(config, states, steps) && i < |states|
    requires a in states[i].log && b in states[i].log && a.actor == b.actor && a.key == b.key
    ensures a.id == b.id && a.request == b.request
  {
    RunInvariant(config, states, steps, i);
    var requests := EveryJobWasMade(config, states, steps, i);
    OwnRequestOnly(config, requests[a.id], a.request);
    OwnRequestOnly(config, requests[a.id], b.request);
  }

  // And so it is under the deployed source table and URL policy.
  lemma OneJobOneRequestDeployed(config: Config, states: seq<Imports>, steps: seq<Step>, i: nat,
                                 a: Acceptance, b: Acceptance)
    requires AsDeployed(config)
    requires Run(config, states, steps) && i < |states|
    requires a in states[i].log && b in states[i].log && a.actor == b.actor && a.key == b.key
    ensures a.id == b.id && a.request == b.request
  {
    AddressesAreSeparate(config);
    OneJobOneRequest(config, states, steps, i, a, b);
  }

  // ---------------------------------------------------------------------------------------------
  // Ends
  // ---------------------------------------------------------------------------------------------

  lemma NothingRevivesCancelled(config: Config, job: Job, step: Step)
    requires !OnSubmission(step) && job.status == Cancelled
    ensures JobAfter(config, job, step).status == Cancelled
  {
  }

  lemma StaysCancelled(config: Config, s: Imports, step: Step, id: nat)
    requires CanDo(config, s, step) && id < |s.jobs| && s.jobs[id].status == Cancelled
    ensures var after := Do(config, s, step).jobs;
            id < |after| && after[id].status == Cancelled
  {
    if !OnSubmission(step) && step.id == id { NothingRevivesCancelled(config, s.jobs[id], step); }
  }

  // A cancelled job stays cancelled, whatever its workers still report.
  lemma {:induction false} CancelledIsFinal(config: Config, states: seq<Imports>, steps: seq<Step>,
                                            i: nat, j: nat, id: nat)
    requires Run(config, states, steps) && i <= j < |states|
    requires id < |states[i].jobs| && states[i].jobs[id].status == Cancelled
    ensures id < |states[j].jobs| && states[j].jobs[id].status == Cancelled
    decreases j - i
  {
    if i < j {
      CancelledIsFinal(config, states, steps, i, j - 1, id);
      StaysCancelled(config, states[j - 1], steps[j - 1], id);
    }
  }

  // A finished import is not final: exactly the lasting failure of another attempt undoes it.
  lemma SuccessUndoneExactly(config: Config, job: Job, step: Step)
    requires !OnSubmission(step) && job.status == Succeeded
    ensures JobAfter(config, job, step).status != Succeeded <==> step.FailForGood?
  {
  }

  // ---------------------------------------------------------------------------------------------
  // What one step leaves to the next
  // ---------------------------------------------------------------------------------------------

  // An attempt has the job to itself for its lease: it counts at once, the next one starts exactly when
  // the lease is over and attempts are left, and a manual retry requeues the job exactly from then on.
  lemma AttemptKeepsItsLease(config: Config, job: Job, id: nat, now: int, later: int)
    requires IsActive(job.status) && job.attempts < config.maxAttempts
    requires job.status == Running ==> job.times.updated + config.lease <= now
    ensures var begun := JobAfter(config, job, Begin(id, now, true));
      && begun.status == Running && begun.attempts == job.attempts + 1 && begun.times == Times(now, Some(now), None)
      && JobAfter(config, begun, Begin(id, later, true)).attempts
         == (if begun.attempts < config.maxAttempts && now + config.lease <= later then begun.attempts + 1
             else begun.attempts)
      && var retried := JobAfter(config, begun, Retry(id, later));
         if now + config.lease <= later then retried.status == Queued && retried.attempts == 0 else retried == begun
  {
  }

  // No attempt starts on a job whose attempts are used up or that has ended; and one whose source is no
  // longer active fails instead, without counting.
  lemma AttemptsRunOut(config: Config, job: Job, id: nat, now: int, sourceActive: bool)
    ensures job.attempts >= config.maxAttempts || !IsActive(job.status) ==>
              JobAfter(config, job, Begin(id, now, sourceActive)) == job
    ensures job.attempts < config.maxAttempts && IsActive(job.status) ==>
              var stopped := JobAfter(config, job, Begin(id, now, false));
              stopped.status == Failed && stopped.attempts == job.attempts
  {
  }

  // A transient failure ends in a retry while attempts are left and in failure otherwise. The waiting job
  // can be requeued by hand once its backoff and then the lease are over, the failed one at once.
  lemma TransientWaits(config: Config, job: Job, id: nat, now: int, backoff: nat, later: int)
    requires job.status != Succeeded && job.status != Cancelled
    ensures var waiting := JobAfter(config, job, FailForNow(id, now, backoff));
      && waiting.status == (if job.attempts < config.maxAttempts then Retrying else Failed)
      && waiting.attempts == job.attempts
      && (JobAfter(config, waiting, Retry(id, later)).status == Queued <==>
            job.attempts >= config.maxAttempts || now + backoff + config.lease <= later)
  {
  }

  // A job that ended can be requeued by hand exactly if it failed.
  lemma EndsDecideRetry(config: Config, job: Job, id: nat, now: int, later: int)
    requires IsActive(job.status)
    ensures var failed := JobAfter(config, job, FailForGood(id, now));
            failed.status == Failed && JobAfter(config, failed, Retry(id, later)).status == Queued
    ensures var swept := JobAfter(config, job, Sweep(id, now));
            swept.status == Failed && JobAfter(config, swept, Retry(id, later)).status == Queued
    ensures var finished := JobAfter(config, job, Finish(id, now));
            finished.status == Succeeded && JobAfter(config, finished, Retry(id, later)) == finished
    ensures var cancelled := JobAfter(config, job, Cancel(id, now));
            cancelled.status == Cancelled && JobAfter(config, cancelled, Retry(id, later)) == cancelled
  {
  }

  // The sweep and a cancellation leave an ended job alone; so does a late report to a cancelled one. A
  // late success of a failed job counts.
  lemma EndedStays(config: Config, job: Job, id: nat, now: int, backoff: nat)
    requires !IsActive(job.status)
    ensures JobAfter(config, job, Sweep(id, now)) == job == JobAfter(config, job, Cancel(id, now))
    ensures job.status == Cancelled ==>
              && JobAfter(config, job, Finish(id, now)) == job == JobAfter(config, job, FailForGood(id, now))
              && JobAfter(config, job, FailForNow(id, now, backoff)) == job
    ensures job.status == Failed ==> JobAfter(config, job, Finish(id, now)).status == Succeeded
  {
  }

  // ---------------------------------------------------------------------------------------------
  // The limit can be passed
  // ---------------------------------------------------------------------------------------------

  lemma Extend(config: Config, states: seq<Imports>, steps: seq<Step>, step: Step)
    requires Run(config, states, steps) && CanDo(config, states[|steps|], step)
    ensures Run(config, states + [Do(config, states[|steps|], step)], steps + [step])
  {
  }

  // With room under every limit and a new key, a submission goes through.
  lemma Admit(config: Config, states: seq<Imports>, steps: seq<Step>, key: string, url: string, now: int)
    returns (more: seq<Imports>, taken: seq<Step>)
    requires Run(config, states, steps)
    requires var s := states[|steps|];
      && s.lock.None? && Find(s.jobs, 0, key).None? && config.approved(url)
      && Count(s.jobs, CreatedSince(0, now - config.window)) < config.rateLimit
      && Count(s.jobs, ActiveFor(0)) < config.actorLimit && Count(s.jobs, AnyActive()) < config.globalLimit
    ensures Run(config, more, taken)
    ensures var s := states[|steps|];
            var last := more[|taken|];
      && last.lock.None? && last.workers == s.workers
      && last.jobs == s.jobs + [NewJob(Submission(0, key, Page(url), now, Cleared), now)]
  {
    var s := states[|steps|];
    var sub := Submission(0, key, Page(url), now, Rated);
    Extend(config, states, steps, Submit(0, key, Page(url), now));
    var s1 := s.(lock := Some(sub));
    more, taken := states + [s1], steps + [Submit(0, key, Page(url), now)];
    Extend(config, more, taken, CountMine);
    var s2 := s.(lock := Some(sub.(stage := ActorCounted)));
    more, taken := more + [s2], taken + [CountMine];
    Extend(config, more, taken, CountAll);
    var s3 := s.(lock := Some(sub.(stage := Cleared)));
    more, taken := more + [s3], taken + [CountAll];
    Extend(config, more, taken, Add(now));
    more, taken := more + [Insert(s3, now)], taken + [Add(now)];
  }

  // Where a revival happens, its actor has one active job more than before.
  lemma RevivalRaises(config: Config, jobs: seq<Job>, id: nat, step: Step)
    requires id < |jobs| && !OnSubmission(step) && Revives(config, jobs[id], step)
    ensures var after := jobs[id := JobAfter(config, jobs[id], step)];
            Count(after, ActiveFor(jobs[id].ticket.actor)) == Count(jobs, ActiveFor(jobs[id].ticket.actor)) + 1
  {
    CountRaise(jobs, id, JobAfter(config, jobs[id], step), ActiveFor(jobs[id].ticket.actor));
  }

  lemma {:induction false} CountRaise(jobs: seq<Job>, id: nat, job: Job, f: Job -> bool)
    requires id < |jobs| && f(job) && !f(jobs[id])
    ensures Count(jobs[id := job], f) == Count(jobs, f) + 1
  {
    var last := |jobs| - 1;
    if id == last {
      assert jobs[id := job][..last] == jobs[..last];
    } else {
      assert jobs[id := job][..last] == jobs[..last][id := job];
      CountRaise(jobs[..last], id, job, f);
    }
  }

  const TIGHT := Config(10, 60, 1, 10, 4, 60, (url: string) => url == "p" || url == "q", "w", "k")

  // One submission runs until the sweep fails it, while its worker lives on.
  lemma FirstFails() returns (states: seq<Imports>, steps: seq<Step>)
    ensures Run(TIGHT, states, steps)
    ensures var s := states[|steps|];
      && s.lock.None? && s.workers == multiset{0} && |s.jobs| == 1
      && s.jobs[0].status == Failed && s.jobs[0].attempts == 1 && SamePair(s.jobs[0].ticket, 0, "a")
  {
    states, steps := Admit(TIGHT, [START], [], "a", "p", 0);
    Extend(TIGHT, states, steps, Begin(0, 0, true));
    var running := Do(TIGHT, states[|steps|], Begin(0, 0, true));
    states, steps := states + [running], steps + [Begin(0, 0, true)];
    Extend(TIGHT, states, steps, Sweep(0, 100));
    states, steps := states + [Do(TIGHT, running, Sweep(0, 100))], steps + [Sweep(0, 100)];
  }

  // A second takes its place; then the first one's worker reports a transient failure, and both are
  // active under a limit of one.
  lemma LimitCanBePassed() returns (states: seq<Imports>, steps: seq<Step>)
    ensures Run(TIGHT, states, steps)
    ensures Count(states[|steps|].jobs, ActiveFor(0)) == 2 && TIGHT.actorLimit == 1
  {
    states, steps := FirstFails();
    var s := states[|steps|];
    assert s.jobs == [s.jobs[0]];
    CountAdd([], s.jobs[0], ActiveFor(0));
    CountAdd([], s.jobs[0], AnyActive());
    states, steps := Admit(TIGHT, states, steps, "b", "q", 100);
    var both := states[|steps|];
    CountAdd(s.jobs, both.jobs[1], ActiveFor(0));
    RevivalRaises(TIGHT, both.jobs, 0, FailForNow(0, 101, 1));
    Extend(TIGHT, states, steps, FailForNow(0, 101, 1));
    states, steps := states + [Do(TIGHT, both, FailForNow(0, 101, 1))], steps + [FailForNow(0, 101, 1)];
  }

  // ---------------------------------------------------------------------------------------------
  // A success can be undone
  // ---------------------------------------------------------------------------------------------

  lemma TwoAttempts() returns (states: seq<Imports>, steps: seq<Step>)
    ensures Run(TIGHT, states, steps)
    ensures var s := states[|steps|];
      && s.lock.None? && s.workers == multiset{0, 0} && |s.jobs| == 1
      && s.jobs[0].status == Running && s.jobs[0].attempts == 2
  {
    states, steps := Admit(TIGHT, [START], [], "a", "p", 0);
    Extend(TIGHT, states, steps, Begin(0, 0, true));
    var first := Do(TIGHT, states[|steps|], Begin(0, 0, true));
    states, steps := states + [first], steps + [Begin(0, 0, true)];
    Extend(TIGHT, states, steps, Begin(0, 60, true));
    states, steps := states + [Do(TIGHT, first, Begin(0, 60, true))], steps + [Begin(0, 60, true)];
  }

  // A second attempt starts when the first one's lease is over; one of them succeeds, and the other
  // then reports a lasting failure.
  lemma SuccessCanBeUndone() returns (states: seq<Imports>, steps: seq<Step>)
    ensures Run(TIGHT, states, steps) && |steps| > 0
    ensures |states[|steps| - 1].jobs| == 1 && states[|steps| - 1].jobs[0].status == Succeeded
    ensures |states[|steps|].jobs| == 1 && states[|steps|].jobs[0].status == Failed
  {
    states, steps := TwoAttempts();
    Extend(TIGHT, states, steps, Finish(0, 61));
    var done := Do(TIGHT, states[|steps|], Finish(0, 61));
    states, steps := states + [done], steps + [Finish(0, 61)];
    Extend(TIGHT, states, steps, FailForGood(0, 62));
    states, steps := states + [Do(TIGHT, done, FailForGood(0, 62))], steps + [FailForGood(0, 62)];
  }
}
