/** The import handlers over the job table, each running alone under the lock it takes. */
module ImportHandlers {
  import opened Prelude
  import opened Admission
  import opened AdmissionRuns

  datatype Rejection =
    | RateLimited | PendingQuotaExceeded | GlobalQuotaExceeded | KeyConflict
    | NotAllowed | NotFound | NotCancellable | NotRetryable

  class Table {
    var jobs: seq<Job>

    // The job this key already has, or leave to add one, or the quota that refuses it.
    method AdmitSubmission(config: Config, actor: nat, key: string, now: int)
      returns (r: Result<Option<nat>, Rejection>)
      ensures r.Ok? && r.value.Some? <==> Find(jobs, actor, key).Some?
      ensures r.Ok? && r.value.Some? ==> r.value == Find(jobs, actor, key)
      ensures forall request :: r == Ok(None) && Asked(config, request) ==>
                Admitting(config, jobs, Submission(actor, key, request, now, Cleared))
      ensures r == Ok(None) ==>
        && Count(jobs, CreatedSince(actor, now - config.window)) < config.rateLimit
        && Count(jobs, ActiveFor(actor)) < config.actorLimit && Count(jobs, AnyActive()) < config.globalLimit
      ensures r.Err? ==>
        match r.error
        case RateLimited => Count(jobs, CreatedSince(actor, now - config.window)) >= config.rateLimit
        case PendingQuotaExceeded =>
          && Count(jobs, CreatedSince(actor, now - config.window)) < config.rateLimit
          && Count(jobs, ActiveFor(actor)) >= config.actorLimit
        case GlobalQuotaExceeded =>
          && Count(jobs, CreatedSince(actor, now - config.window)) < config.rateLimit
          && Count(jobs, ActiveFor(actor)) < config.actorLimit && Count(jobs, AnyActive()) >= config.globalLimit
        case _ => false
    {
      var existing := Find(jobs, actor, key);
      if existing.Some? {
        return Ok(existing);
      }
      if Count(jobs, CreatedSince(actor, now - config.window)) >= config.rateLimit {
        return Err(RateLimited);
      }
      if Count(jobs, ActiveFor(actor)) >= config.actorLimit {
        return Err(PendingQuotaExceeded);
      }
      if Count(jobs, AnyActive()) >= config.globalLimit {
        return Err(GlobalQuotaExceeded);
      }
      FreshAreActive(jobs, actor);
      r := Ok(None);
    }

    // Answers with the one job of this actor and key, adding it only where there was none; a refusal
    // leaves the table as it was.
    method CreateImport(config: Config, actor: nat, key: string, request: Request, now: int, created: int)
      returns (r: Result<nat, Rejection>)
      requires AdmissionRuns.Table(config, jobs) && now <= created
      modifies this
      ensures AdmissionRuns.Table(config, jobs)
      ensures r.Ok? ==>
                && r.value < |jobs| && SamePair(jobs[r.value].ticket, actor, key)
                && Matches(jobs[r.value].ticket.stored, request)
      ensures r == Err(NotAllowed) <==> !Asked(config, request)
      ensures Asked(config, request) ==>
        var was := Find(old(jobs), actor, key);
        && (was.Some? ==> && jobs == old(jobs)
                          && r == if Matches(jobs[was.value].ticket.stored, request) then Ok(was.value)
                                  else Err(KeyConflict))
        && (was.None? ==>
              var room := Count(old(jobs), CreatedSince(actor, now - config.window)) < config.rateLimit;
              var mine := Count(old(jobs), ActiveFor(actor)) < config.actorLimit;
              var all := Count(old(jobs), AnyActive()) < config.globalLimit;
              && (r.Ok? <==> room && mine && all)
              && (r.Err? ==> r.error == if !room then RateLimited
                                        else if !mine then PendingQuotaExceeded else GlobalQuotaExceeded))
        && (r.Ok? && was.None? ==> jobs == old(jobs) + [NewJob(Submission(actor, key, request, now, Cleared), created)])
      ensures r.Err? ==> jobs == old(jobs)
    {
      if !Asked(config, request) {
        return Err(NotAllowed);
      }
      var admitted := AdmitSubmission(config, actor, key, now);
      if admitted.Err? {
        return Err(admitted.error);
      }
      var id: nat;
      if admitted.value.Some? {
        id := admitted.value.value;
      } else {
        var sub := Submission(actor, key, request, now, Cleared);
        id := |jobs|;
        AddKeepsTable(config, jobs, sub, created);
        MatchesExactly(request, request);
        jobs := jobs + [NewJob(sub, created)];
      }
      if !Matches(jobs[id].ticket.stored, request) {
        return Err(KeyConflict);
      }
      r := Ok(id);
    }

    predicate Owned(id: nat, actor: nat, diagnostics: bool)
      reads this
    {
      id < |jobs| && (diagnostics || jobs[id].ticket.actor == actor)
    }

    method CancelImport(config: Config, id: nat, actor: nat, diagnostics: bool, now: int)
      returns (r: Result<(), Rejection>)
      requires AdmissionRuns.Table(config, jobs)
      modifies this
      ensures AdmissionRuns.Table(config, jobs)
      ensures r == Err(NotFound) <==> !(id < |old(jobs)| && (diagnostics || old(jobs)[id].ticket.actor == actor))
      ensures r == Err(NotCancellable) <==> old(Owned(id, actor, diagnostics)) && !IsActive(old(jobs[id].status))
      ensures r.Ok? ==>
                && id < |old(jobs)| && jobs == old(jobs)[id := CancelledJob(old(jobs[id]), now)]
                && jobs[id].status == Cancelled
      ensures r.Err? ==> jobs == old(jobs)
    {
      if !Owned(id, actor, diagnostics) {
        return Err(NotFound);
      }
      if !IsActive(jobs[id].status) {
        return Err(NotCancellable);
      }
      JobKeeps(config, jobs[id], Cancel(id, now));
      UpdateKeepsTable(config, jobs, id, CancelledJob(jobs[id], now));
      jobs := jobs[id := CancelledJob(jobs[id], now)];
      r := Ok(());
    }

    // Requeues a failed or stale job; a queued one is left alone and reported as not reset.
    method RetryImport(config: Config, id: nat, actor: nat, diagnostics: bool, now: int)
      returns (r: Result<bool, Rejection>)
      requires AdmissionRuns.Table(config, jobs)
      modifies this
      ensures AdmissionRuns.Table(config, jobs)
      ensures r == Err(NotFound) <==> !(id < |old(jobs)| && (diagnostics || old(jobs)[id].ticket.actor == actor))
      ensures r == Err(NotRetryable) <==>
        && old(Owned(id, actor, diagnostics)) && old(jobs[id].status) != Queued
        && !ManuallyRetryable(config, old(jobs[id]), now)
      ensures r.Ok? ==> id < |jobs| && jobs[id].status == Queued
      ensures r == Ok(true) ==>
        id < |old(jobs)| && jobs == old(jobs)[id := Retried(config, old(jobs[id]), now)] && jobs[id].attempts == 0
      ensures r.Err? || r == Ok(false) ==> jobs == old(jobs)
    {
      if !Owned(id, actor, diagnostics) {
        return Err(NotFound);
      }
      if jobs[id].status == Queued {
        return Ok(false);
      }
      if !ManuallyRetryable(config, jobs[id], now) {
        return Err(NotRetryable);
      }
      JobKeeps(config, jobs[id], Retry(id, now));
      UpdateKeepsTable(config, jobs, id, Retried(config, jobs[id], now));
      jobs := jobs[id := Retried(config, jobs[id], now)];
      r := Ok(true);
    }
  }
}
