/** What holds over every run of the editor protocol. */
module SyncTheorems {
  import opened Prelude
  import opened Client
  import opened ClientInvariants
  import opened EditTokens
  import opened Server
  import opened Protocol
  import opened ProtocolInvariant

  // A start: some committed catalogue, possibly drafts left in local storage, nothing under way.
  ghost predicate Start(s: System) {
    ServerOk(s.server) && DraftsOk(s.disk) && s.pages == map[] && s.mail == [] && s.log == [] && s.accepted == map[]
  }

  // Any interleaving of steps, considerate or not.
  ghost predicate AnyRun(states: seq<System>, steps: seq<Step>) {
    && |states| == |steps| + 1
    && Start(states[0])
    && forall i | 0 <= i < |steps| :: CanDo(states[i], steps[i]) && states[i + 1] == Do(states[i], steps[i])
  }

  // A run: any interleaving of considerate steps.
  ghost predicate Run(states: seq<System>, steps: seq<Step>) {
    AnyRun(states, steps) && forall i | 0 <= i < |steps| :: Considerate(states[i], steps[i])
  }

  lemma {:induction false} RunInvariant(states: seq<System>, steps: seq<Step>, i: nat)
    requires Run(states, steps) && i < |states|
    ensures Inv(states[i])
  {
    if i > 0 {
      RunInvariant(states, steps, i - 1);
      StepKeeps(states[i - 1], steps[i - 1]);
    }
  }

  lemma StepGrows(states: seq<System>, steps: seq<Step>, i: nat)
    requires Run(states, steps) && i < |steps|
    ensures Grows(states[i].server, states[i + 1].server)
  {
    RunInvariant(states, steps, i);
    StepKeeps(states[i], steps[i]);
  }

  lemma {:induction false} GrowsAlong(servers: seq<Catalog>, i: nat, j: nat)
    requires i <= j < |servers| && forall k | i <= k < j :: Grows(servers[k], servers[k + 1])
    ensures Grows(servers[i], servers[j])
    decreases j
  {
    if i < j {
      GrowsAlong(servers, i, j - 1);
      assert Grows(servers[j - 1], servers[j - 1 + 1]);
      GrowsOn(servers[i], servers[j - 1], servers[j]);
    }
  }

  // Over any run tokens only rise, components stay, and committed versions are never rewritten.
  lemma ServerOnlyGrows(states: seq<System>, steps: seq<Step>, i: nat, j: nat)
    requires Run(states, steps) && i <= j < |states|
    ensures Grows(states[i].server, states[j].server)
  {
    var servers := seq(|states|, k requires 0 <= k < |states| => states[k].server);
    forall k | i <= k < j ensures Grows(servers[k], servers[k + 1]) { StepGrows(states, steps, k); }
    GrowsAlong(servers, i, j);
  }

  // No lost update: with any number of pages and lost or late answers, every accepted save
  // replaced exactly the version its text descends from, and the accepted versions of a
  // component follow one another without overlap.
  lemma NoLostUpdate(states: seq<System>, steps: seq<Step>, i: nat)
    requires Run(states, steps) && i < |states|
    ensures forall e | e in states[i].log :: e.origin == Some(e.before) && e.before < e.after
    ensures forall j, k | 0 <= j < k < |states[i].log| && states[i].log[j].id == states[i].log[k].id ::
              states[i].log[j].after <= states[i].log[k].before
  {
    RunInvariant(states, steps, i);
  }

  // The same at the moment of acceptance: the row being replaced is the one the text came from,
  // and the accepted document is what the row then holds.
  lemma AcceptedSucceedsOrigin(states: seq<System>, steps: seq<Step>, i: nat)
    requires Run(states, steps) && i < |steps| && steps[i].Handle? && states[i].mail[steps[i].r].request.Save?
    requires states[i + 1].server != states[i].server
    ensures var env := states[i].mail[steps[i].r];
            && env.request.id in states[i].server.rows
            && env.origin == Some(states[i].server.rows[env.request.id].token)
            && states[i].server.rows[env.request.id].token < states[i + 1].server.rows[env.request.id].token
            && states[i + 1].server.rows[env.request.id].content == env.request.content
  {
    RunInvariant(states, steps, i);
    var env := states[i].mail[steps[i].r];
    assert EnvelopeOk(states[i].server, env);
    AcceptedExactly(states[i].server, env.actor, env.request, steps[i].ruling);
  }

  // "Saved" means saved: after editing, the last document the server accepted from this page is
  // the one on screen, no older save of the page can still get through, and as long as nobody
  // else has written, the server holds it.
  lemma SavedMeansSaved(states: seq<System>, steps: seq<Step>, i: nat, q: PageId)
    requires Run(states, steps) && i < |states| && q in states[i].pages
    requires var c := states[i].pages[q].c; c.status == Saved && c.text.generation > 0
    ensures var s, text := states[i], states[i].pages[q].c.text;
            && text.card.Some?
            && LastAccepted(s, q, text.card.value.id, text.state)
            && text.card.value.content == text.state
            && (s.server.rows[text.card.value.id].token == text.card.value.token ==>
                  s.server.rows[text.card.value.id].content == text.state)
  {
    RunInvariant(states, steps, i);
    assert Sane(states[i], q);
  }

  // Unsaved work is never shown as saved, and is never stranded: a page that says "dirty" has a
  // timer running or a drain under way.
  lemma DirtyIsHonest(states: seq<System>, steps: seq<Step>, i: nat, q: PageId)
    requires Run(states, steps) && i < |states| && q in states[i].pages
    ensures var c := states[i].pages[q].c;
            && c.text.acknowledged <= c.text.generation
            && (c.dirty <==> c.text.acknowledged != c.text.generation)
            && (c.status == Saved ==> !c.dirty)
            && (c.status == Dirty && !c.disposed ==> c.timer || c.drain != Idle)
  {
    RunInvariant(states, steps, i);
    assert Sane(states[i], q);
  }

  // Exclusion: a page sends only when its previous request has been answered or given up, and
  // what it then waits for is that request.
  lemma OneOperationAtATime(states: seq<System>, steps: seq<Step>, i: nat)
    requires Run(states, steps) && i < |steps| && steps[i].Act?
    requires React(states[i].pages[steps[i].page].c, steps[i].event).send.Some?
    ensures var c, e := states[i].pages[steps[i].page].c, steps[i].event;
            && (Settles(e) || Outstanding(c).None?)
            && Outstanding(React(c, e).c) == React(c, e).send
            && |states[i + 1].mail| == |states[i].mail| + 1
  {
    RunInvariant(states, steps, i);
    assert Sane(states[i], steps[i].page);
    SoundStep(states[i].pages[steps[i].page].c, steps[i].event);
  }

  // A command runs alone, on a card that holds every local edit, and the text cannot be edited
  // until it ends.
  lemma CommandRunsAlone(states: seq<System>, steps: seq<Step>, i: nat, q: PageId)
    requires Run(states, steps) && i < |states| && q in states[i].pages && states[i].pages[q].c.flight == Running
    ensures var s, p := states[i], states[i].pages[q];
            && p.c.drain == Idle && !p.c.dirty && p.c.text.card.Some?
            && p.waiting < |s.mail| && s.mail[p.waiting].page == q
            && s.mail[p.waiting].request == Command(p.c.text.card.value.id, p.c.text.card.value.token)
            && (p.c.text.generation > 0 ==> p.c.text.card.value.content == p.c.text.state)
    ensures forall state, errors, stored ::
              EditStep(states[i].pages[q].c, state, errors, stored) == Still(states[i].pages[q].c)
  {
    RunInvariant(states, steps, i);
    assert Sane(states[i], q);
  }

  // One creation key names at most one component, however often its POST was repeated.
  lemma OneComponentPerKey(states: seq<System>, steps: seq<Step>, i: nat, x: ComponentId, y: ComponentId)
    requires Run(states, steps) && i < |states| && x in states[i].server.rows && y in states[i].server.rows
    requires states[i].server.rows[x].bornOf.Some? && states[i].server.rows[x].bornOf == states[i].server.rows[y].bornOf
    ensures x == y
  {
    RunInvariant(states, steps, i);
  }

  // And every successful answer to that key, whichever page asked, is about that component.
  lemma OneAnswerPerKey(states: seq<System>, steps: seq<Step>, i: nat, j: nat, k: nat)
    requires Run(states, steps) && i < |states| && j < |states[i].mail| && k < |states[i].mail|
    requires var a, b := states[i].mail[j], states[i].mail[k];
             && a.request.Create? && b.request.Create? && a.request.key == b.request.key
             && a.outcome.Some? && a.outcome.value.Got? && b.outcome.Some? && b.outcome.value.Got?
    ensures states[i].mail[j].outcome.value.card.id == states[i].mail[k].outcome.value.card.id
  {
    RunInvariant(states, steps, i);
    assert EnvelopeOk(states[i].server, states[i].mail[j]) && EnvelopeOk(states[i].server, states[i].mail[k]);
  }

  // ---------------------------------------------------------------------------------------------
  // Crash and recovery
  // ---------------------------------------------------------------------------------------------

  // The step writes to an entry of local storage, or removes it.
  ghost predicate Touches(s: System, step: Step, slot: Slot) {
    match step
    case Lose(lost) => lost == slot
    case Act(page, e) =>
      && page in s.pages && s.pages[page].slot == slot && CanReact(s.pages[page].c, e)
      && (React(s.pages[page].c, e).put.Some? || React(s.pages[page].c, e).erase)
    case _ => false
  }

  ghost predicate TouchedByOther(s: System, step: Step, slot: Slot, q: PageId) {
    Touches(s, step, slot) && !(step.Act? && step.page == q)
  }

  // The page's event leaves its draft in local storage.
  ghost predicate Writes(s: System, step: Step, q: PageId) {
    && step.Act? && step.page == q && q in s.pages && CanReact(s.pages[q].c, step.event)
    && React(s.pages[q].c, step.event).put.Some? && !React(s.pages[q].c, step.event).erase
  }

  // An entry nobody touches stays.
  lemma {:induction false} EntryStays(states: seq<System>, steps: seq<Step>, i: nat, j: nat, slot: Slot)
    requires AnyRun(states, steps) && i <= j < |states|
    requires forall k | i <= k < j :: !Touches(states[k], steps[k], slot)
    ensures slot in states[j].disk <==> slot in states[i].disk
    ensures slot in states[i].disk ==> states[j].disk[slot] == states[i].disk[slot]
    decreases j - i
  {
    if i < j { EntryStays(states, steps, i, j - 1, slot); }
  }

  // Pages get fresh numbers: one that is gone stays gone.
  lemma {:induction false} GoneForGood(states: seq<System>, steps: seq<Step>, i: nat, j: nat, q: PageId)
    requires AnyRun(states, steps) && i <= j < |states| && q < states[i].used && q !in states[i].pages
    ensures q < states[j].used && q !in states[j].pages
    decreases j - i
  {
    if i < j {
      GoneForGood(states, steps, i, j - 1, q);
      GoneStep(states[j - 1], steps[j - 1], q);
    }
  }

  lemma GoneStep(s: System, step: Step, q: PageId)
    requires CanDo(s, step) && q < s.used && q !in s.pages
    ensures q < Do(s, step).used && q !in Do(s, step).pages
  {
  }

  // While only the page itself writes to its entry, the entry is undisturbed.
  lemma {:induction false} Undisturbed(states: seq<System>, steps: seq<Step>, wrote: nat, i: nat, q: PageId)
    requires AnyRun(states, steps) && wrote < i < |states|
    requires Writes(states[wrote], steps[wrote], q) && q < states[wrote].used
    requires forall k | wrote < k < i :: !TouchedByOther(states[k], steps[k], states[wrote].pages[q].slot, q)
    ensures q < states[i].used
    ensures q in states[i].pages ==>
              states[i].pages[q].slot == states[wrote].pages[q].slot && !states[i].pages[q].disturbed
    decreases i - wrote
  {
    if i > wrote + 1 {
      Undisturbed(states, steps, wrote, i - 1, q);
      UndisturbedStep(states[i - 1], steps[i - 1], q);
    }
  }

  lemma UndisturbedStep(s: System, step: Step, q: PageId)
    requires CanDo(s, step) && q < s.used && (q in s.pages ==> !s.pages[q].disturbed)
    requires q in s.pages ==> !TouchedByOther(s, step, s.pages[q].slot, q)
    ensures var t := Do(s, step);
            q < t.used && (q in t.pages ==> q in s.pages && t.pages[q].slot == s.pages[q].slot && !t.pages[q].disturbed)
  {
  }

  ghost predicate StoredWork(s: System, q: PageId) {
    q in s.pages && s.pages[q].c.dirty && s.pages[q].c.localStored
  }

  lemma StoredBefore(s: System, step: Step, q: PageId)
    requires Inv(s) && CanDo(s, step) && StoredWork(Do(s, step), q)
    ensures Writes(s, step, q) || StoredWork(s, q)
  {
    if step.Act? && step.page == q {
      assert Sane(s, q);
      SoundStep(s.pages[q].c, step.event);
    }
  }

  // Work a page reports as unsaved but stored was written by an event of that page.
  lemma {:induction false} WorkWasWritten(states: seq<System>, steps: seq<Step>, i: nat, q: PageId) returns (wrote: nat)
    requires Run(states, steps) && i < |states| && StoredWork(states[i], q)
    ensures wrote < i && Writes(states[wrote], steps[wrote], q)
    decreases i
  {
    if i == 0 {
      assert false;
    } else {
      RunInvariant(states, steps, i - 1);
      wrote := i - 1;
      var s, step := states[wrote], steps[wrote];
      assert StoredWork(Do(s, step), q);
      StoredBefore(s, step, q);
      if !Writes(s, step, q) { wrote := WorkWasWritten(states, steps, i - 1, q); }
    }
  }

  // The page dies with unsaved work in its undisturbed entry. Whatever happens before some page is
  // opened on that entry, answers to the dead page's own requests included, as long as nothing
  // touches the entry: it is offered exactly that work, with the version it was based on.
  lemma CrashKeepsTheOffer(states: seq<System>, steps: seq<Step>, i: nat, j: nat, q: PageId)
    requires Run(states, steps) && i < j < |steps| && steps[i] == Crash(q)
    requires StoredWork(states[i], q) && !states[i].pages[q].disturbed
    requires steps[j].Open? && steps[j].slot == states[i].pages[q].slot && steps[j].readable
    requires forall k | i < k < j :: !Touches(states[k], steps[k], states[i].pages[q].slot)
    ensures var text, again := states[i].pages[q].c.text, states[j].used;
            && again in states[j + 1].pages
            && states[j + 1].pages[again].c.status == Recovery
            && states[j + 1].pages[again].c.recovery == Some(Draft(
                 text.baseToken, text.creationKey,
                 if text.card.Some? then Some(text.card.value.id) else None, text.state))
            && states[j + 1].pages[again].held == text.baseToken
  {
    RunInvariant(states, steps, i);
    assert Sane(states[i], q);
    EntryStays(states, steps, i, j, states[i].pages[q].slot);
  }

  // The same in terms of steps alone: if nobody else has touched the entry since the page last wrote
  // it, the work a dying page reports as stored is offered to the next page opened on the entry.
  lemma CrashOffersTheDraft(states: seq<System>, steps: seq<Step>, wrote: nat, i: nat, j: nat, q: PageId)
    requires Run(states, steps) && wrote < i < j < |steps| && steps[i] == Crash(q)
    requires StoredWork(states[i], q)
    requires steps[j].Open? && steps[j].slot == states[i].pages[q].slot && steps[j].readable
    requires Writes(states[wrote], steps[wrote], q)
    requires forall k | wrote < k < j :: !TouchedByOther(states[k], steps[k], states[i].pages[q].slot, q)
    ensures var text, again := states[i].pages[q].c.text, states[j].used;
            && again in states[j + 1].pages
            && states[j + 1].pages[again].c.status == Recovery
            && states[j + 1].pages[again].c.recovery == Some(Draft(
                 text.baseToken, text.creationKey,
                 if text.card.Some? then Some(text.card.value.id) else None, text.state))
            && states[j + 1].pages[again].held == text.baseToken
  {
    RunInvariant(states, steps, wrote);
    assert Sane(states[wrote], q);
    SlotStays(states, steps, wrote, i, q, states[wrote].pages[q].slot);
    Undisturbed(states, steps, wrote, i, q);
    forall k | i < k < j ensures !Touches(states[k], steps[k], states[i].pages[q].slot) {
      GoneForGood(states, steps, i + 1, k, q);
    }
    CrashKeepsTheOffer(states, steps, i, j, q);
  }

  // In general the offer is what the last step that touched the entry left there: the acting page's
  // draft, or nothing if that step removed it. A page's own work is thus offered to no one once
  // another page has written over it.
  lemma OfferIsTheLastTouch(states: seq<System>, steps: seq<Step>, last: nat, j: nat, slot: Slot)
    requires Run(states, steps) && last < j < |steps|
    requires Touches(states[last], steps[last], slot)
    requires forall k | last < k < j :: !Touches(states[k], steps[k], slot)
    requires steps[j].Open? && steps[j].slot == slot && steps[j].readable
    ensures states[j].used in states[j + 1].pages
    ensures var page := states[j + 1].pages[states[j].used];
            if steps[last].Act? && Writes(states[last], steps[last], steps[last].page) then
              steps[last].page in states[last + 1].pages &&
              var text := states[last + 1].pages[steps[last].page].c.text;
              page.c.recovery == Some(DraftOf(text)) && page.held == text.baseToken
            else page.c.recovery == None
  {
    RunInvariant(states, steps, last);
    RunInvariant(states, steps, last + 1);
    LastTouch(states[last], steps[last], slot);
    EntryStays(states, steps, last + 1, j, slot);
  }

  // What a step that touches an entry leaves there.
  lemma LastTouch(s: System, step: Step, slot: Slot)
    requires Inv(s) && CanDo(s, step) && Touches(s, step, slot)
    ensures var t := Do(s, step);
            if step.Act? && Writes(s, step, step.page) then
              step.page in t.pages && slot in t.disk && t.disk[slot].draft == DraftOf(t.pages[step.page].c.text)
            else slot !in t.disk
  {
    if step.Act? {
      assert Sane(s, step.page);
      SoundStep(s.pages[step.page].c, step.event);
    }
  }

  // A page keeps its entry, and its number is not used again.
  ghost predicate OnSlot(s: System, q: PageId, slot: Slot) {
    q < s.used && (q in s.pages ==> s.pages[q].slot == slot)
  }

  lemma SlotStep(s: System, step: Step, q: PageId, slot: Slot)
    requires CanDo(s, step) && OnSlot(s, q, slot)
    ensures OnSlot(Do(s, step), q, slot)
  {
  }

  lemma {:induction false} SlotStays(states: seq<System>, steps: seq<Step>, i: nat, j: nat, q: PageId, slot: Slot)
    requires AnyRun(states, steps) && i <= j < |states| && OnSlot(states[i], q, slot)
    ensures OnSlot(states[j], q, slot)
    decreases j - i
  {
    if i < j {
      SlotStays(states, steps, i, j - 1, q, slot);
      SlotStep(states[j - 1], steps[j - 1], q, slot);
    }
  }

  // Taking the offer makes the draft current, under the draft's own key and base; the page ends in a
  // conflict, with no timer and no drain, exactly when the card it then shows is not at that base.
  lemma RecoverRestores(c: Client, e: Event)
    requires Core(c) && CanReact(c, e) && TakesDraft(c, e)
    ensures var d, draft := React(c, e).c, c.recovery.value;
            && d.text.state == draft.state && d.text.baseToken == draft.token
            && d.text.creationKey == draft.creationKey && d.dirty && d.recovery.None?
            && d.text.card == (if e.Loaded? then e.loaded else c.text.card)
            && (d.status == Conflict <==> TokenOf(d.text.card) != draft.token)
            && (d.status == Conflict ==> !d.timer && d.drain == Idle)
  {
    TakesDraftExactly(c, e);
    SoundStep(c, e);
    if e.Recover? {
      RecoveryEdits(c, e.errors, e.stored);
    } else {
      RecoveryEdits(WithCard(c.(loads := c.loads - 1), e.loaded.value), e.errors, e.stored);
    }
  }

  // From a stale offer to its discard: once taken, the page stays in the conflict and sends nothing,
  // whatever else happens, up to a discard or the start of a command.
  lemma StaleDraftSendsNothing(cs: seq<Client>, es: seq<Event>, i: nat)
    requires Trace(cs, es) && Core(cs[0]) && 1 <= i < |cs|
    requires TakesDraft(cs[0], es[0]) && TokenOf(cs[1].text.card) != cs[0].recovery.value.token
    requires forall j | 1 <= j < |es| :: es[j] != StartCommand && !es[j].Discard?
    ensures React(cs[0], es[0]).send.None?
    ensures cs[i].status == Conflict && !cs[i].timer && (i < |es| ==> React(cs[i], es[i]).send.None?)
  {
    RecoverRestores(cs[0], es[0]);
    TakesDraftExactly(cs[0], es[0]);
    SoundStep(cs[0], es[0]);
    ConflictSendsNothing(cs[1..], es[1..], i - 1);
  }

  // What the crash guarantee does not survive: another page on the same entry that finishes its
  // own save removes the draft, while the first page still reports it as stored.
  lemma SharedEntryLosesTheDraft(s: System, q: PageId, e: Event, other: PageId)
    requires CanDo(s, Act(q, e)) && React(s.pages[q].c, e).erase
    requires other in s.pages && other != q && s.pages[other].slot == s.pages[q].slot
    requires s.pages[other].c.dirty && s.pages[other].c.localStored
    ensures var t := ActStep(s, q, e);
            && t.pages[other].c == s.pages[other].c && t.pages[other].disturbed
            && t.pages[other].slot !in t.disk
  {
  }

  // Exactly two events end a conflict: a discard that goes through, and the start of a command.
  lemma ConflictEndsExactly(c: Client, e: Event)
    requires Core(c) && c.status == Conflict && CanReact(c, e)
    ensures React(c, e).send.None? && (!c.timer ==> !React(c, e).c.timer)
    ensures React(c, e).c.status != Conflict <==> e == StartCommand || (e.Discard? && c.flight == NoFlight)
  {
  }

  // Successive controllers under successive events.
  ghost predicate Trace(cs: seq<Client>, es: seq<Event>) {
    && |cs| == |es| + 1
    && forall i | 0 <= i < |es| :: CanReact(cs[i], es[i]) && cs[i + 1] == React(cs[i], es[i]).c
  }

  // So a conflict sends nothing, whatever else happens, until it is discarded.
  lemma {:induction false} ConflictSendsNothing(cs: seq<Client>, es: seq<Event>, i: nat)
    requires Trace(cs, es) && Core(cs[0]) && cs[0].status == Conflict
    requires forall j | 0 <= j < |es| :: es[j] != StartCommand && !es[j].Discard?
    requires i < |cs|
    ensures Core(cs[i]) && cs[i].status == Conflict && (i < |es| ==> React(cs[i], es[i]).send.None?)
    ensures !cs[0].timer ==> !cs[i].timer
  {
    if i > 0 {
      ConflictSendsNothing(cs, es, i - 1);
      SoundStep(cs[i - 1], es[i - 1]);
      ConflictEndsExactly(cs[i - 1], es[i - 1]);
    }
    if i < |es| { ConflictEndsExactly(cs[i], es[i]); }
  }

  // ---------------------------------------------------------------------------------------------
  // Progress
  // ---------------------------------------------------------------------------------------------

  // How many more requests a drain needs if nobody edits: a create is followed by a save, and a
  // save of an older text by a save of the present one.
  function Need(c: Client): nat {
    match c.drain
    case Idle => 0
    case Scheduled => if c.text.card.None? then 2 else 1
    case Awaiting(sent, _, creating) => if creating || sent < c.text.generation then 2 else 1
  }

  predicate Succeeds(c: Client, e: Event) {
    e.Delivered? && e.reply.Got? && c.drain.Awaiting? && (c.drain.creating ==> e.reply.card.token == 1)
  }

  // Each success uses up one needed request; with the last one the page is saved.
  lemma SuccessProgresses(c: Client, e: Event)
    requires Core(c) && !c.disposed && !c.fieldErrors && Succeeds(c, e)
    ensures var d := React(c, e).c;
            && Core(d) && Need(d) == Need(c) - 1 && !d.disposed && !d.fieldErrors
            && (Need(d) > 0 ==> d.drain.Awaiting?)
            && (Need(d) == 0 ==> d.status == Saved && !d.dirty)
  {
  }

  lemma StartProgresses(c: Client)
    requires Core(c) && !c.disposed && !c.fieldErrors && c.drain == Scheduled
    ensures var d := React(c, StartDrain).c;
            Core(d) && d.drain.Awaiting? && Need(d) == Need(c) && !d.disposed && !d.fieldErrors
  {
  }

  // Events once edits stop: timers, flushes, commands, busy marks and answers may still come.
  predicate Calm(e: Event) {
    !e.Edit? && !e.Recover? && !e.Loaded? && !e.Discard? && !e.Dispose?
  }

  // A page whose text can be saved: a drain is under way, or everything is acknowledged.
  ghost predicate Saving(c: Client) {
    Core(c) && !c.disposed && !c.fieldErrors && (c.drain == Idle ==> !c.dirty && c.text.card.Some?)
  }

  predicate FailedCommand(e: Event) {
    e.CommandDelivered? && e.reply.Refused?
  }

  // Need drops by one with each answer, and never otherwise.
  lemma CalmStep(c: Client, e: Event)
    requires Saving(c) && CanReact(c, e) && Calm(e) && (e.Delivered? ==> Succeeds(c, e))
    ensures var d := React(c, e).c;
            && Saving(d) && Need(d) == Need(c) - (if e.Delivered? then 1 else 0)
            && (c.drain == Idle ==> d.drain == Idle)
            && ((c.drain == Idle ==> c.status == Saved) && !FailedCommand(e) ==> d.drain == Idle ==> d.status == Saved)
  {
    SoundStep(c, e);
    if e.Delivered? { SuccessProgresses(c, e); }
  }

  function Deliveries(es: seq<Event>): nat {
    if es == [] then 0 else Deliveries(es[..|es| - 1]) + if es[|es| - 1].Delivered? then 1 else 0
  }

  // Once edits stop, from a scheduled or running drain whose requests succeed, and whatever timers,
  // flushes and commands come in between: every answer uses up one needed request and nothing else
  // does, at most two are ever needed, and when none is left the page is saved (a command that then
  // fails may change the status, never the text). Until then the drain is under way.
  lemma {:induction false} DrainEndsSaved(cs: seq<Client>, es: seq<Event>, i: nat)
    requires Trace(cs, es) && Core(cs[0]) && cs[0].drain != Idle && !cs[0].disposed && !cs[0].fieldErrors
    requires forall j | 0 <= j < |es| :: Calm(es[j]) && (es[j].Delivered? ==> Succeeds(cs[j], es[j]))
    requires i < |cs|
    ensures Need(cs[i]) + Deliveries(es[..i]) == Need(cs[0]) <= 2
    ensures Saving(cs[i]) && (Need(cs[i]) == 0 <==> cs[i].drain == Idle)
    ensures Need(cs[i]) == 0 ==> !cs[i].dirty && cs[i].text.acknowledged == cs[i].text.generation
    ensures Need(cs[i]) == 0 && (forall j | 0 <= j < i :: !FailedCommand(es[j])) ==> cs[i].status == Saved
  {
    if i > 0 {
      DrainEndsSaved(cs, es, i - 1);
      CalmStep(cs[i - 1], es[i - 1]);
      assert es[..i][..i - 1] == es[..i - 1];
    }
  }

  // A page with one undenied save to go, on its way to a server still at the page's card.
  ghost predicate OneSaveToGo(s: System, q: PageId, ruling: Ruling) {
    && q in s.pages
    && var p := s.pages[q];
       && !p.c.disposed && !p.c.fieldErrors && p.c.drain.Awaiting? && !p.c.drain.creating && Need(p.c) == 1
       && p.waiting < |s.mail| && s.mail[p.waiting].outcome.None?
       && CanDo(s, Handle(p.waiting, ruling)) && !ruling.deny
       && p.c.text.card.Some? && p.c.text.card.value.id in s.server.rows
       && s.server.rows[p.c.text.card.value.id].token == p.c.text.card.value.token
  }

  // A save that nothing denies, of a page nobody has overtaken, ends with the text on the server.
  lemma SaveReachesServer(states: seq<System>, steps: seq<Step>, i: nat, q: PageId, ruling: Ruling,
                          merged: Document, stored: bool)
    requires Run(states, steps) && i < |states| && OneSaveToGo(states[i], q, ruling)
    ensures var s, p := states[i], states[i].pages[q];
            var t := Do(s, Handle(p.waiting, ruling));
            && t.mail[p.waiting].outcome.Some? && t.mail[p.waiting].outcome.value.Got? && t.pages == s.pages
            && t.server.rows[p.c.text.card.value.id].content == p.c.text.state
            && var answer := Delivered(t.mail[p.waiting].outcome.value, merged, stored);
               CanDo(t, Act(q, answer)) && React(p.c, answer).c.status == Saved
  {
    RunInvariant(states, steps, i);
    var s, p := states[i], states[i].pages[q];
    assert Sane(s, q);
    AcceptedExactly(s.server, s.mail[p.waiting].actor, s.mail[p.waiting].request, ruling);
    var t := Do(s, Handle(p.waiting, ruling));
    SuccessProgresses(p.c, Delivered(t.mail[p.waiting].outcome.value, merged, stored));
  }

  // ---------------------------------------------------------------------------------------------
  // A command in a conflict
  // ---------------------------------------------------------------------------------------------

  // Why commands must keep away from a stale conflict: from every such page, the command's failed
  // flush followed by an ordinary save sends the text under the newer card's token, and a server
  // still at that card accepts it over a version the text does not descend from.
  lemma CommandDefeatsConflict(c: Client, server: Catalog, actor: nat, ruling: Ruling)
    requires Core(c) && StaleConflict(c) && c.dirty && !c.fieldErrors && !c.disposed && !c.busy
    requires c.flight == NoFlight && c.recovery.None? && c.text.card.Some?
    requires ruling.bumps != [] && !ruling.deny
    requires c.text.card.value.id in server.rows && server.rows[c.text.card.value.id].token == c.text.card.value.token
    ensures var called := React(c, CallCommand).c;
            CanReact(called, StartCommand) &&
            var failed := React(called, StartCommand).c;
            var flushed := React(failed, Flush).c;
            CanReact(flushed, StartDrain) &&
            var send := React(flushed, StartDrain).send;
            && send == Some(Save(c.text.card.value.id, c.text.card.value.token, c.text.state))
            && c.text.baseToken != Some(send.value.token)
            && Serve(server, actor, send.value, ruling).1.Got?
  {
  }
}
