/**
 Admission of import jobs and their life afterwards. A submission holds one advisory lock while it
 looks for an earlier job with its key, counts, and inserts; workers, cancellations, retries and the
 dispatch sweep change rows in between without that lock.
 */
module Admission {
  import opened Prelude

  datatype Status = Queued | Running | Retrying | Succeeded | Failed | Cancelled

  predicate IsActive(status: Status) {
    status == Queued || status == Running || status == Retrying
  }

  datatype Repository = Wiki | Symbols

  // What a client asks for: a page, or an entry of a source's repository.
  datatype Request =
    | Page(url: string)
    | Entry(source: Repository, repository: string, revision: string, path: string, name: Option<string>)

  // The columns a job keeps of its request.
  datatype Stored = Stored(
    submittedUrl: string, repository: Option<string>, revision: Option<string>, path: Option<string>,
    name: Option<string>)

  // Whose the row is, and what it stands for. `admitted`, the clock reading the quota used, is
  // history: the row does not hold it.
  datatype Ticket = Ticket(
    actor: nat, key: string, source: Option<Repository>, stored: Stored, created: int, admitted: int)

  datatype Times = Times(updated: int, heartbeat: Option<int>, nextRetry: Option<int>)

  // `revived`, active again after having failed, is history.
  datatype Job = Job(ticket: Ticket, status: Status, attempts: nat, times: Times, revived: bool)

  // The settings; then which pages the URL policy approves, and the two repositories' addresses.
  datatype Config = Config(
    rateLimit: nat, window: nat, actorLimit: nat, globalLimit: nat, maxAttempts: nat, lease: nat,
    approved: string -> bool, wikiUrl: string, symbolsUrl: string)

  datatype Stage = Rated | ActorCounted | Cleared

  datatype Submission = Submission(actor: nat, key: string, request: Request, now: int, stage: Stage)

  // A 202 answer: this job stands for this request.
  datatype Acceptance = Acceptance(actor: nat, key: string, request: Request, id: nat)

  // `workers` holds one entry for every attempt still running; `log` is history.
  datatype Imports = Imports(
    jobs: seq<Job>, lock: Option<Submission>, workers: multiset<nat>, log: seq<Acceptance>)

  // ---------------------------------------------------------------------------------------------
  // Requests and stored identities
  // ---------------------------------------------------------------------------------------------

  function RepositoryUrl(config: Config, repository: Repository): string {
    if repository == Wiki then config.wikiUrl else config.symbolsUrl
  }

  // What the endpoints let through to admission: approved pages; wiki files, which have no entry
  // name; and symbols, which have one. Everything else is answered 422.
  predicate Asked(config: Config, request: Request) {
    match request
    case Page(url) => config.approved(url)
    case Entry(source, repository, _, _, name) =>
      repository == RepositoryUrl(config, source) && (name.None? <==> source == Wiki)
  }

  function SourceOf(request: Request): Option<Repository> {
    if request.Page? then None else Some(request.source)
  }

  function StoredFor(request: Request): Stored {
    match request
    case Page(url) => Stored(url, None, None, None, None)
    case Entry(_, repository, revision, path, name) =>
      Stored(repository, Some(repository), Some(revision), Some(path), name)
  }

  // Page imports compare the URL alone; repository imports the four identity columns.
  predicate Matches(stored: Stored, request: Request) {
    match request
    case Page(url) => stored.submittedUrl == url
    case Entry(_, repository, revision, path, name) =>
      && stored.repository == Some(repository) && stored.revision == Some(revision)
      && stored.path == Some(path) && stored.name == name
  }

  predicate Confused(a: Request, b: Request) {
    a.Entry? && b == Page(a.repository)
  }

  predicate SameButSource(a: Request, b: Request) {
    a.Entry? && b.Entry? && b == a.(source := b.source)
  }

  // A stored job answers for another request only when the comparison does not see the difference:
  // the page of its own repository, or the same entry of another source.
  lemma MatchesExactly(made: Request, asked: Request)
    ensures Matches(StoredFor(made), asked) <==> asked == made || Confused(made, asked) || SameButSource(made, asked)
  {
  }

  // No page of a repository is an approved page.
  predicate Separate(config: Config) {
    !config.approved(config.wikiUrl) && !config.approved(config.symbolsUrl)
  }

  // So among the requests that reach admission a stored job answers for its own alone.
  lemma OwnRequestOnly(config: Config, made: Request, asked: Request)
    requires Separate(config) && Asked(config, made) && Asked(config, asked)
    ensures Matches(StoredFor(made), asked) <==> asked == made
  {
  }

  const WIKI_URL := "https://github.com/Seeed-Studio/wiki-documents"
  const SYMBOLS_URL := "https://gitlab.com/kicad/libraries/kicad-symbols"
  const HOSTS: seq<string> := ["arduino-tex.ru", "portal-pk.ru", "alexgyver.ru"]

  // A canonical address on one of the approved hosts.
  predicate OnApprovedHost(url: string) {
    exists host <- HOSTS :: "https://" + host <= url
  }

  // The source table as it is seeded, and what is known of the URL policy: it approves nothing off the
  // approved hosts.
  ghost predicate AsDeployed(config: Config) {
    && config.wikiUrl == WIKI_URL && config.symbolsUrl == SYMBOLS_URL
    && forall url: string | config.approved(url) :: OnApprovedHost(url)
  }

  // So the two keep apart.
  lemma AddressesAreSeparate(config: Config)
    requires AsDeployed(config)
    ensures Separate(config)
  {
    WikiInitial();
    SymbolsInitial();
    if OnApprovedHost(config.wikiUrl) { HostInitial(config.wikiUrl); }
    if OnApprovedHost(config.symbolsUrl) { HostInitial(config.symbolsUrl); }
  }

  lemma WikiInitial()
    ensures WIKI_URL[8] == 'g'
  {
  }

  lemma SymbolsInitial()
    ensures SYMBOLS_URL[8] == 'g'
  {
  }

  lemma HostInitial(url: string)
    requires OnApprovedHost(url)
    ensures |url| > 8 && (url[8] == 'a' || url[8] == 'p')
  {
    var host :| host in HOSTS && "https://" + host <= url;
    assert host[0] == 'a' || host[0] == 'p';
    assert ("https://" + host)[8] == host[0];
  }

  // What a finished repository import writes over the identity columns: its adapter's address, the
  // path it read, and for symbols the entry's name. Page imports leave them empty.
  function Completed(config: Config, ticket: Ticket): Ticket {
    match ticket.source
    case None => ticket
    case Some(Wiki) => ticket.(stored := ticket.stored.(repository := Some(config.wikiUrl), name := None))
    case Some(Symbols) => ticket.(stored := ticket.stored.(repository := Some(config.symbolsUrl)))
  }

  predicate Genuine(config: Config, ticket: Ticket) {
    ticket.source.Some? ==>
      && ticket.stored.repository == Some(RepositoryUrl(config, ticket.source.value))
      && (ticket.stored.name.None? <==> ticket.source.value == Wiki)
  }

  // ---------------------------------------------------------------------------------------------
  // Counting
  // ---------------------------------------------------------------------------------------------

  function Count(jobs: seq<Job>, counted: Job -> bool): nat {
    if jobs == [] then 0
    else Count(jobs[..|jobs| - 1], counted) + if counted(jobs[|jobs| - 1]) then 1 else 0
  }

  // The quota queries' filters.
  function AnyActive(): Job -> bool {
    (job: Job) => IsActive(job.status)
  }

  function ActiveFor(actor: nat): Job -> bool {
    (job: Job) => IsActive(job.status) && job.ticket.actor == actor
  }

  function CreatedSince(actor: nat, since: int): Job -> bool {
    (job: Job) => job.ticket.actor == actor && job.ticket.created >= since
  }

  predicate SamePair(ticket: Ticket, actor: nat, key: string) {
    ticket.actor == actor && ticket.key == key
  }

  function Find(jobs: seq<Job>, actor: nat, key: string): (id: Option<nat>)
    ensures id.Some? ==> id.value < |jobs| && SamePair(jobs[id.value].ticket, actor, key)
    ensures id.None? ==> forall i | 0 <= i < |jobs| :: !SamePair(jobs[i].ticket, actor, key)
  {
    if jobs == [] then None
    else if SamePair(jobs[|jobs| - 1].ticket, actor, key) then Some(|jobs| - 1)
    else Find(jobs[..|jobs| - 1], actor, key)
  }

  // ---------------------------------------------------------------------------------------------
  // Submission, one statement at a time
  // ---------------------------------------------------------------------------------------------

  // An existing job answers if it stands for the same request; otherwise 409.
  function Answer(s: Imports, actor: nat, key: string, request: Request, id: nat): Imports
    requires id < |s.jobs|
  {
    if Matches(s.jobs[id].ticket.stored, request)
    then s.(lock := None, log := s.log + [Acceptance(actor, key, request, id)])
    else s.(lock := None)
  }

  function Enter(config: Config, s: Imports, actor: nat, key: string, request: Request, now: int): Imports {
    match Find(s.jobs, actor, key)
    case Some(id) => Answer(s, actor, key, request, id)
    case None =>
      if Count(s.jobs, CreatedSince(actor, now - config.window)) >= config.rateLimit then s
      else s.(lock := Some(Submission(actor, key, request, now, Rated)))
  }

  function CountActor(config: Config, s: Imports): Imports
    requires s.lock.Some?
  {
    var sub := s.lock.value;
    if Count(s.jobs, ActiveFor(sub.actor)) >= config.actorLimit then s.(lock := None)
    else s.(lock := Some(sub.(stage := ActorCounted)))
  }

  function CountGlobal(config: Config, s: Imports): Imports
    requires s.lock.Some?
  {
    if Count(s.jobs, AnyActive()) >= config.globalLimit then s.(lock := None)
    else s.(lock := Some(s.lock.value.(stage := Cleared)))
  }

  function NewJob(sub: Submission, created: int): Job {
    Job(Ticket(sub.actor, sub.key, SourceOf(sub.request), StoredFor(sub.request), created, sub.now), Queued, 0,
        Times(created, None, None), false)
  }

  // The unique index guards the insert; its violation rolls back and looks the other job up.
  function Insert(s: Imports, created: int): Imports
    requires s.lock.Some?
  {
    var sub := s.lock.value;
    match Find(s.jobs, sub.actor, sub.key)
    case Some(id) => Answer(s, sub.actor, sub.key, sub.request, id)
    case None =>
      s.(jobs := s.jobs + [NewJob(sub, created)], lock := None,
         log := s.log + [Acceptance(sub.actor, sub.key, sub.request, |s.jobs|)])
  }

  // ---------------------------------------------------------------------------------------------
  // One job at a time
  // ---------------------------------------------------------------------------------------------

  function MarkFailed(job: Job, now: int): Job {
    if job.status == Cancelled then job
    else job.(status := Failed, times := job.times.(updated := now, heartbeat := Some(now)))
  }

  function Begun(config: Config, job: Job, now: int, sourceActive: bool): Job {
    if !IsActive(job.status) || job.attempts >= config.maxAttempts then job
    else if !sourceActive then MarkFailed(job, now)
    else if job.status == Running && job.times.updated > now - config.lease then job
    else job.(status := Running, attempts := job.attempts + 1, times := Times(now, Some(now), None))
  }

  // A transient failure is skipped only for a job that succeeded or was cancelled.
  function Transient(config: Config, job: Job, now: int, backoff: nat): Job {
    if job.status == Succeeded || job.status == Cancelled then job
    else if job.attempts >= config.maxAttempts then MarkFailed(job, now)
    else job.(status := Retrying, times := Times(now, Some(now), Some(now + backoff)),
              revived := job.revived || job.status == Failed)
  }

  function Persisted(config: Config, job: Job, now: int): Job {
    if job.status == Succeeded || job.status == Cancelled then job
    else job.(status := Succeeded, times := job.times.(updated := now), ticket := Completed(config, job.ticket))
  }

  function DispatchFailed(job: Job, now: int): Job {
    if IsActive(job.status) then job.(status := Failed, times := Times(now, Some(now), None)) else job
  }

  function CancelledJob(job: Job, now: int): Job {
    if IsActive(job.status) then job.(status := Cancelled, times := Times(now, Some(now), None)) else job
  }

  predicate ManuallyRetryable(config: Config, job: Job, now: int) {
    var reference := job.times.heartbeat.GetOr(job.times.updated);
    var stale := now - config.lease;
    || job.status == Failed
    || (job.status == Running && reference <= stale)
    || (job.status == Retrying && job.times.nextRetry.Some? && job.times.nextRetry.value <= stale && reference <= stale)
  }

  function Retried(config: Config, job: Job, now: int): Job {
    if job.status == Queued || !ManuallyRetryable(config, job, now) then job
    else job.(status := Queued, attempts := 0, times := Times(now, None, None),
              revived := job.revived || job.status == Failed)
  }
}
