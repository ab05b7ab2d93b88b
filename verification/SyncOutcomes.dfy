/** What the page's operations come to, told over the steps that follow them. */
module SyncOutcomes {
  import opened Prelude
  import opened Client
  import opened ClientInvariants
  import opened EditTokens
  import opened Server
  import opened Protocol
  import opened ProtocolInvariant
  import opened SyncTheorems

  function After(c: Client, e: Event): Client
    requires CanReact(c, e)
  {
    React(c, e).c
  }

  // ---------------------------------------------------------------------------------------------
  // What an edit comes to
  // ---------------------------------------------------------------------------------------------

  // An edit is taken exactly by a page neither disposed, in a command, nor offering a draft. It becomes
  // the text, one generation on, unsaved; its draft is stored exactly if the write succeeds; and it is
  // scheduled to be sent unless it has errors or a conflict is showing.
  lemma EditIsTaken(c: Client, state: Document, errors: bool, stored: bool)
    requires !c.disposed && c.flight == NoFlight && c.recovery.None?
    ensures var out := React(c, Edit(state, errors, stored));
      && out.c.text == c.text.(state := state, generation := c.text.generation + 1)
      && out.c.dirty && out.c.localStored == stored && !out.erase && out.send.None?
      && out.put == (if stored then Some(Draft(c.text.baseToken, c.text.creationKey,
                                               if c.text.card.Some? then Some(c.text.card.value.id) else None, state))
                     else None)
      && (out.c.timer <==> !errors && c.status != Conflict)
      && out.c.status == (if c.status == Conflict then Conflict else if errors then Invalid else Dirty)
  {
  }

  lemma EditIsIgnored(c: Client, state: Document, errors: bool, stored: bool)
    requires c.disposed || c.flight != NoFlight || c.recovery.Some?
    ensures React(c, Edit(state, errors, stored)) == Still(c)
  {
  }

  // An edit without errors is sent: its timer can fire, the drain it schedules can start, and what
  // leaves is that text, under the card's id and token or else under the page's creation key.
  lemma EditIsSent(c: Client, state: Document, stored: bool)
    requires Core(c) && !c.disposed && c.flight == NoFlight && c.recovery.None? && c.drain == Idle
    requires c.status != Conflict
    ensures var edited := After(c, Edit(state, false, stored));
      && CanReact(edited, TimerFires)
      && CanReact(After(edited, TimerFires), StartDrain)
      && React(After(edited, TimerFires), StartDrain).send ==
         Some(if c.text.card.None? then Create(c.text.creationKey, state)
              else Save(c.text.card.value.id, c.text.card.value.token, state))
  {
  }

  // A flush leaves no timer running, and starts a drain exactly on unsaved work that may be sent and is
  // not being sent already.
  lemma FlushStarts(c: Client)
    requires !c.disposed
    ensures var flushed := After(c, Flush);
      && !flushed.timer && flushed == c.(timer := false, drain := flushed.drain)
      && flushed.drain == (if c.drain == Idle && c.dirty && c.recovery.None? && c.status != Conflict && !c.fieldErrors
                           then Scheduled else c.drain)
  {
  }

  // ---------------------------------------------------------------------------------------------
  // Only valid texts are sent
  // ---------------------------------------------------------------------------------------------

  // The document a request carries.
  function Carried(request: Option<Request>): Option<Document> {
    match request
    case Some(Create(_, content)) => Some(content)
    case Some(Save(_, _, content)) => Some(content)
    case _ => None
  }

  // Unsaved work is marked as the validator sees it.
  predicate Vetted(valid: Document -> bool, c: Client) {
    c.dirty ==> (c.fieldErrors <==> !valid(c.text.state))
  }

  // The events' error marks are the validator's, and merging server metadata does not change its verdict.
  predicate Judged(valid: Document -> bool, c: Client, e: Event) {
    match e
    case Edit(state, errors, _) => errors == !valid(state)
    case Recover(errors, _) => c.recovery.Some? ==> errors == !valid(c.recovery.value.state)
    case Loaded(_, errors, _) => c.recovery.Some? ==> errors == !valid(c.recovery.value.state)
    case Delivered(_, merged, _) => valid(merged) == valid(c.text.state)
    case _ => true
  }

  ghost predicate SendsValid(valid: Document -> bool, out: Out) {
    Vetted(valid, out.c) && (Carried(out.send).Some? ==> valid(Carried(out.send).value))
  }

  lemma FinishSendsValid(valid: Document -> bool, c: Client, settled: Settled, put: Option<Draft>, erase: bool)
    requires Vetted(valid, c)
    ensures SendsValid(valid, Finish(c, settled, put, erase))
  {
  }

  lemma HeadSendsValid(valid: Document -> bool, c: Client, put: Option<Draft>)
    requires Vetted(valid, c) && (c.dirty || c.text.acknowledged == c.text.generation)
    ensures SendsValid(valid, DrainHead(c, put))
  {
    if c.text.acknowledged == c.text.generation {
      FinishSendsValid(valid, c.(status := Saved, dirty := false, localStored := false), Fulfilled, put, true);
    } else if c.disposed {
      FinishSendsValid(valid, c, Fulfilled, put, false);
    } else if c.fieldErrors {
      FinishSendsValid(valid, c.(status := Invalid), Thrown(false), put, false);
    }
  }

  lemma FailureSendsValid(valid: Document -> bool, c: Client, conflict: bool, stored: bool)
    requires Vetted(valid, c) && c.dirty
    ensures SendsValid(valid, DrainFails(c, conflict, stored))
  {
    var out := Persist(c.(status := if conflict then Conflict else Failed, dirty := true), stored);
    FinishSendsValid(valid, out.c, Thrown(conflict), out.put, false);
  }

  lemma DeliverySendsValid(valid: Document -> bool, c: Client, e: Event)
    requires Core(c) && CanReact(c, e) && e.Delivered? && Vetted(valid, c) && Judged(valid, c, e)
    ensures SendsValid(valid, React(c, e))
  {
    if c.disposed {
      FinishSendsValid(valid, c, Fulfilled, None, false);
    } else if e.reply.Refused? {
      FailureSendsValid(valid, c, e.reply.conflict, e.stored);
    } else if c.drain.creating && e.reply.card.token != 1 {
      FailureSendsValid(valid, c.(text := Shown(c.text, c.drain, e.reply.card, e.merged)), true, e.stored);
    } else {
      var out := Persist(c.(text := Acked(c.text, c.drain, e.reply.card, e.merged)), e.stored);
      HeadSendsValid(valid, out.c, out.put);
    }
  }

  lemma QuietSendsValid(valid: Document -> bool, c: Client, e: Event)
    requires Core(c) && CanReact(c, e) && Quiet(e) && Vetted(valid, c)
    ensures SendsValid(valid, React(c, e))
  {
    if e.StartDrain? { HeadSendsValid(valid, c, None); }
  }

  lemma RecoverSendsValid(valid: Document -> bool, c: Client, e: Event)
    requires Core(c) && e.Recover? && Vetted(valid, c) && Judged(valid, c, e)
    ensures SendsValid(valid, React(c, e))
  {
    if c.recovery.Some? { OfferTakenValid(valid, c, e.errors, e.stored); }
  }

  lemma LoadedSendsValid(valid: Document -> bool, c: Client, e: Event)
    requires Core(c) && e.Loaded? && c.loads > 0 && Vetted(valid, c) && Judged(valid, c, e)
    ensures SendsValid(valid, React(c, e))
  {
    if c.recovery.Some? && e.loaded.Some? {
      OfferTakenValid(valid, WithCard(c.(loads := c.loads - 1), e.loaded.value), e.errors, e.stored);
    }
  }

  lemma OfferTakenValid(valid: Document -> bool, c: Client, errors: bool, stored: bool)
    requires c.recovery.Some? && !c.dirty && errors == !valid(c.recovery.value.state)
    ensures SendsValid(valid, FinishRecovery(c, errors, stored))
  {
  }

  lemma StepSendsValid(valid: Document -> bool, c: Client, e: Event)
    requires Core(c) && CanReact(c, e) && Vetted(valid, c) && Judged(valid, c, e)
    ensures SendsValid(valid, React(c, e))
  {
    if Quiet(e) {
      QuietSendsValid(valid, c, e);
    } else if e.Delivered? {
      DeliverySendsValid(valid, c, e);
    } else if e.Recover? {
      RecoverSendsValid(valid, c, e);
    } else if e.Loaded? {
      LoadedSendsValid(valid, c, e);
    }
  }

  // So over any sequence of events, no create and no save carries a text with errors.
  lemma {:induction false} NothingInvalidIsSent(valid: Document -> bool, cs: seq<Client>, es: seq<Event>, i: nat)
    requires Trace(cs, es) && Core(cs[0]) && !cs[0].dirty && i < |cs|
    requires forall j | 0 <= j < |es| :: Judged(valid, cs[j], es[j])
    ensures Core(cs[i]) && Vetted(valid, cs[i])
    ensures i < |es| && Carried(React(cs[i], es[i]).send).Some? ==> valid(Carried(React(cs[i], es[i]).send).value)
  {
    if i > 0 {
      NothingInvalidIsSent(valid, cs, es, i - 1);
      SoundStep(cs[i - 1], es[i - 1]);
      StepSendsValid(valid, cs[i - 1], es[i - 1]);
    }
    if i < |es| { StepSendsValid(valid, cs[i], es[i]); }
  }

  // ---------------------------------------------------------------------------------------------
  // What a command comes to
  // ---------------------------------------------------------------------------------------------

  // A call is taken exactly by a page neither disposed, busy, nor in a command already.
  predicate TakesCall(c: Client, e: Event) {
    e == CallCommand && !c.disposed && !c.busy && c.flight == NoFlight
  }

  lemma CallIsTaken(c: Client)
    ensures React(c, CallCommand) == Still(if TakesCall(c, CallCommand) then c.(flight := Called) else c)
  {
  }

  // On a page with nothing to save, a called command is sent at once, on the card it shows; without
  // a card it fails.
  lemma CleanCommandIsSent(c: Client)
    requires Core(c) && c.flight == Called && !c.disposed && c.drain == Idle && !c.dirty
    requires c.recovery.None? && c.status != Conflict && !c.fieldErrors
    ensures var out := React(c, StartCommand);
      if c.text.card.Some? then
        && out.send == Some(Command(c.text.card.value.id, c.text.card.value.token))
        && out.c.flight == Running && out.c.text == c.text
      else out.send.None? && out.c.flight == NoFlight && out.c.status == Failed
  {
  }

  // On a page with unsaved work, the work is saved first, and the command follows on the card that
  // answers; a refusal ends it, showing a conflict exactly if it was one.
  lemma CommandFollowsSave(c: Client, reply: Reply, merged: Document, stored: bool)
    requires Core(c) && c.flight == Called && !c.disposed && c.drain == Idle && c.dirty
    requires c.recovery.None? && c.status != Conflict && !c.fieldErrors && c.text.card.Some?
    ensures var waiting := After(c, StartCommand);
      && React(c, StartCommand).send.None? && CanReact(waiting, StartDrain)
      && var saving := React(waiting, StartDrain);
         && saving.send == Some(Save(c.text.card.value.id, c.text.card.value.token, c.text.state))
         && CanReact(saving.c, Delivered(reply, merged, stored))
         && var out := React(saving.c, Delivered(reply, merged, stored));
            && (reply.Got? ==>
                  && out.send == Some(Command(reply.card.id, reply.card.token)) && out.c.flight == Running
                  && out.c.status == Saved && !out.c.dirty && out.c.text.state == c.text.state)
            && (reply.Refused? ==>
                  && out.send.None? && out.c.flight == NoFlight && out.c.dirty && out.c.text == c.text
                  && out.c.status == if reply.conflict then Conflict else Failed)
  {
  }

  // Where nothing can be sent, the command fails at once.
  lemma BlockedCommandFails(c: Client)
    requires c.flight == Called
    requires c.disposed || (c.drain == Idle && (c.recovery.Some? || c.status == Conflict || c.fieldErrors))
    ensures var out := React(c, StartCommand);
      out.send.None? && out.c.flight == NoFlight && out.c.status == Failed && out.c.text == c.text
  {
  }

  // However a command ends, the page shows what the answer says, and the next edit and the next call
  // are taken.
  lemma CommandEnds(c: Client, reply: Reply, state: Document, errors: bool, stored: bool)
    requires Core(c) && c.flight == Running && !c.disposed
    ensures var ended := After(c, CommandDelivered(reply));
      && (reply.Got? ==>
            ended.status == Saved && ended.text.card == Some(reply.card) && ended.text.state == c.text.state)
      && (reply.Refused? ==> ended.status == (if reply.conflict then Conflict else Failed) && ended.text == c.text)
      && ended.dirty == c.dirty && (!c.busy ==> TakesCall(ended, CallCommand))
      && var edited := After(ended, Edit(state, errors, stored));
         && edited.text.state == state && edited.dirty
         && edited.text.generation == ended.text.generation + 1 == c.text.generation + 1
  {
  }

  // A command still to be sent.
  function Pending(c: Client): nat {
    if c.flight == Called || c.flight == Flushing then 1 else 0
  }

  function CommandSent(request: Option<Request>): nat {
    if request.Some? && request.value.Command? then 1 else 0
  }

  // What no event but a call, a busy mark or an offer changes: no command leaves that was not pending,
  // a disposed page is silent for good, work that stops being unsaved takes its local entry with it,
  // and marks, options and creation key stay.
  ghost predicate Steady(c: Client, out: Out) {
    && CommandSent(out.send) + Pending(out.c) <= Pending(c)
    && (c.disposed ==> out.c.disposed && out.send.None?)
    && (c.dirty && !out.c.dirty ==> out.erase)
    && out.c.busy == c.busy && out.c.options == c.options && out.c.text.creationKey == c.text.creationKey
  }

  lemma FinishSteady(c: Client, settled: Settled, put: Option<Draft>, erase: bool)
    ensures Steady(c, Finish(c, settled, put, erase))
  {
  }

  lemma HeadSteady(c: Client, put: Option<Draft>)
    requires c.drain != Idle && (c.disposed ==> c.text.acknowledged != c.text.generation)
    ensures Steady(c, DrainHead(c, put))
  {
    if c.text.acknowledged == c.text.generation {
      FinishSteady(c.(status := Saved, dirty := false, localStored := false), Fulfilled, put, true);
    } else if c.disposed {
      FinishSteady(c, Fulfilled, put, false);
    } else if c.fieldErrors {
      FinishSteady(c.(status := Invalid), Thrown(false), put, false);
    }
  }

  lemma FailureSteady(c: Client, conflict: bool, stored: bool)
    requires c.dirty
    ensures Steady(c, DrainFails(c, conflict, stored))
  {
    var out := Persist(c.(status := if conflict then Conflict else Failed, dirty := true), stored);
    FinishSteady(out.c, Thrown(conflict), out.put, false);
  }

  lemma DeliverySteady(c: Client, e: Event)
    requires Core(c) && CanReact(c, e) && e.Delivered?
    ensures Steady(c, React(c, e))
  {
    if c.disposed {
      FinishSteady(c, Fulfilled, None, false);
    } else if e.reply.Refused? {
      FailureSteady(c, e.reply.conflict, e.stored);
    } else if c.drain.creating && e.reply.card.token != 1 {
      EditedSteady(c, e);
    } else {
      CardSteady(c, e);
    }
  }

  lemma EditedSteady(c: Client, e: Event)
    requires Core(c) && CanReact(c, e) && e.Delivered? && !c.disposed && e.reply.Got?
    requires c.drain.creating && e.reply.card.token != 1
    ensures Steady(c, React(c, e))
  {
    FailureSteady(c.(text := Shown(c.text, c.drain, e.reply.card, e.merged)), true, e.stored);
  }

  lemma CardSteady(c: Client, e: Event)
    requires Core(c) && CanReact(c, e) && e.Delivered? && !c.disposed && e.reply.Got?
    requires !(c.drain.creating && e.reply.card.token != 1)
    ensures Steady(c, React(c, e))
  {
    var out := Persist(c.(text := Acked(c.text, c.drain, e.reply.card, e.merged)), e.stored);
    HeadSteady(out.c, out.put);
  }

  lemma QuietSteady(c: Client, e: Event)
    requires Core(c) && CanReact(c, e) && (e.Flush? || e.TimerFires? || e.StartDrain? || e.StartCommand?)
    ensures Steady(c, React(c, e))
  {
    if e.StartDrain? { HeadSteady(c, None); }
  }

  lemma OtherSteady(c: Client, e: Event)
    requires Core(c) && CanReact(c, e) && (e.Edit? || e.CommandDelivered? || e.Discard? || e.Dispose?)
    ensures Steady(c, React(c, e))
  {
  }

  // An offer brings its own creation key when it is taken, and nothing is sent or forgotten over it.
  ghost predicate SteadyOffer(c: Client, out: Out) {
    && out.send.None? && !out.erase && Pending(out.c) == Pending(c) && out.c.busy == c.busy
    && out.c.options == c.options && out.c.disposed == c.disposed && (c.dirty ==> out.c.dirty)
    && (out.c.text.creationKey == c.text.creationKey
        || (c.recovery.Some? && out.c.recovery.None? && out.c.text.creationKey == c.recovery.value.creationKey))
  }

  lemma OfferSteady(c: Client, errors: bool, stored: bool)
    requires c.recovery.Some?
    ensures SteadyOffer(c, FinishRecovery(c, errors, stored))
  {
    RecoveryEdits(c, errors, stored);
  }

  lemma RecoverSteady(c: Client, e: Event)
    requires e.Recover?
    ensures SteadyOffer(c, React(c, e))
  {
    if c.recovery.Some? { OfferSteady(c, e.errors, e.stored); }
  }

  lemma ShownSteady(c: Client, card: Card, errors: bool, stored: bool)
    requires c.recovery.Some?
    ensures SteadyOffer(c, FinishRecovery(WithCard(c, card), errors, stored))
  {
    OfferSteady(WithCard(c, card), errors, stored);
  }

  lemma LoadedSteady(c: Client, e: Event)
    requires e.Loaded? && c.loads > 0
    ensures SteadyOffer(c.(loads := c.loads - 1), React(c, e))
  {
    if e.loaded.Some? && !c.disposed && c.recovery.Some? {
      ShownSteady(c.(loads := c.loads - 1), e.loaded.value, e.errors, e.stored);
    }
  }

  lemma MarkSteady(c: Client, e: Event)
    requires e.CallCommand? || e.SetBusy?
    ensures var out := React(c, e);
      && CommandSent(out.send) + Pending(out.c) <= Pending(c) + (if TakesCall(c, e) then 1 else 0)
      && out.c == c.(flight := out.c.flight, busy := if e.SetBusy? then e.on else c.busy) && out.send.None?
  {
  }

  // Over every event: a command leaves only for a call; busy is as last told; a disposed page is
  // silent for good; work that stops being unsaved takes its local entry with it; and the creation key
  // is the page's own or that of an offer it took.
  lemma EventSteady(c: Client, e: Event)
    requires Core(c) && CanReact(c, e)
    ensures var out := React(c, e);
      && CommandSent(out.send) + Pending(out.c) <= Pending(c) + (if TakesCall(c, e) then 1 else 0)
      && out.c.busy == (if e.SetBusy? then e.on else c.busy)
      && (c.disposed ==> out.c.disposed && out.send.None?) && (e == Dispose ==> out.c.disposed)
      && (c.dirty && !out.c.dirty ==> out.erase)
      && (out.c.text.creationKey == c.text.creationKey
          || (c.recovery.Some? && out.c.recovery.None? && out.c.text.creationKey == c.recovery.value.creationKey))
  {
    if e.CallCommand? || e.SetBusy? {
      MarkSteady(c, e);
    } else if e.Delivered? {
      DeliverySteady(c, e);
    } else if e.Recover? {
      RecoverSteady(c, e);
    } else if e.Loaded? {
      LoadedSteady(c, e);
    } else if e.Flush? || e.TimerFires? || e.StartDrain? || e.StartCommand? {
      QuietSteady(c, e);
    } else {
      OtherSteady(c, e);
    }
  }

  // Disposing stops the timer, and no answer changes a disposed page's text or card any more.
  lemma DisposedKeepsItsText(c: Client, e: Event)
    requires Core(c) && CanReact(c, e)
    ensures e == Dispose ==> React(c, e).c == c.(disposed := true, timer := false)
    ensures c.disposed && (Settles(e) || e.Edit?) ==> React(c, e).c.text == c.text && React(c, e).put.None?
  {
  }

  // A disposed page never sends again, whatever still settles.
  lemma {:induction false} DisposedIsSilent(cs: seq<Client>, es: seq<Event>, i: nat)
    requires Trace(cs, es) && Core(cs[0]) && cs[0].disposed && i < |cs|
    ensures Core(cs[i]) && cs[i].disposed && (i < |es| ==> React(cs[i], es[i]).send.None?)
  {
    if i > 0 {
      DisposedIsSilent(cs, es, i - 1);
      SoundStep(cs[i - 1], es[i - 1]);
      EventSteady(cs[i - 1], es[i - 1]);
    }
    if i < |es| { EventSteady(cs[i], es[i]); }
  }

  // ---------------------------------------------------------------------------------------------
  // Commands over whole runs
  // ---------------------------------------------------------------------------------------------

  function CommandsOf(mail: seq<Envelope>, q: PageId): nat {
    if mail == [] then 0
    else CommandsOf(mail[..|mail| - 1], q)
         + if mail[|mail| - 1].page == q && mail[|mail| - 1].request.Command? then 1 else 0
  }

  // A call of the page's command that it takes.
  predicate Calls(s: System, step: Step, q: PageId) {
    step == Act(q, CallCommand) && q in s.pages && TakesCall(s.pages[q].c, CallCommand)
  }

  function CallsBefore(states: seq<System>, steps: seq<Step>, i: nat, q: PageId): nat
    requires i <= |steps| && |states| == |steps| + 1
  {
    if i == 0 then 0
    else CallsBefore(states, steps, i - 1, q) + if Calls(states[i - 1], steps[i - 1], q) then 1 else 0
  }

  lemma {:induction false} CommandsSame(mail: seq<Envelope>, later: seq<Envelope>, q: PageId)
    requires |mail| == |later|
    requires forall k | 0 <= k < |mail| :: mail[k].page == later[k].page && mail[k].request == later[k].request
    ensures CommandsOf(mail, q) == CommandsOf(later, q)
  {
    if mail != [] { CommandsSame(mail[..|mail| - 1], later[..|mail| - 1], q); }
  }

  lemma CommandsMore(mail: seq<Envelope>, last: Envelope, q: PageId)
    ensures CommandsOf(mail + [last], q)
         == CommandsOf(mail, q) + if last.page == q && last.request.Command? then 1 else 0
  {
    assert (mail + [last])[..|mail|] == mail;
  }

  function PendingAt(s: System, q: PageId): nat {
    if q in s.pages then Pending(s.pages[q].c) else 0
  }

  lemma ActBudget(s: System, page: PageId, e: Event, q: PageId)
    requires CanDo(s, Act(page, e)) && Core(s.pages[page].c)
    ensures var t := ActStep(s, page, e);
      CommandsOf(t.mail, q) + PendingAt(t, q)
      <= CommandsOf(s.mail, q) + PendingAt(s, q) + if Calls(s, Act(page, e), q) then 1 else 0
  {
    EventSteady(s.pages[page].c, e);
    var out := React(s.pages[page].c, e);
    if out.send.Some? {
      CommandsMore(s.mail, Envelope(page, s.pages[page].actor, out.send.value, Acted(s, page, e).origin, None), q);
    }
  }

  lemma StepBudget(s: System, step: Step, q: PageId)
    requires Inv(s) && CanDo(s, step)
    ensures var t := Do(s, step);
      CommandsOf(t.mail, q) + PendingAt(t, q)
      <= CommandsOf(s.mail, q) + PendingAt(s, q) + if Calls(s, step, q) then 1 else 0
  {
    if step.Act? {
      assert Sane(s, step.page);
      ActBudget(s, step.page, step.event, q);
    } else if step.Handle? {
      HandleFrame(s, step.r, step.ruling);
      CommandsSame(s.mail, Do(s, step).mail, q);
    } else if q in s.pages {
      assert Sane(s, q);
    }
  }

  // Over every run, a page sends at most one command for each call it has taken.
  lemma {:induction false} CommandsAreCalls(states: seq<System>, steps: seq<Step>, i: nat, q: PageId)
    requires Run(states, steps) && i < |states|
    ensures CommandsOf(states[i].mail, q) + PendingAt(states[i], q) <= CallsBefore(states, steps, i, q)
  {
    if i > 0 {
      CommandsAreCalls(states, steps, i - 1, q);
      RunInvariant(states, steps, i - 1);
      StepBudget(states[i - 1], steps[i - 1], q);
    }
  }

  // ---------------------------------------------------------------------------------------------
  // What a discard comes to
  // ---------------------------------------------------------------------------------------------

  // A discard goes through exactly when nothing is under way. It then shows the replacement, or else what
  // the page was opened with, with nothing unsaved, nothing offered, and no local entry.
  lemma DiscardShows(c: Client, replacement: Option<(Card, Document)>)
    requires c.drain == Idle && c.flight == NoFlight
    ensures var out := React(c, Discard(replacement));
      && out.c.text.state == (if replacement.Some? then replacement.value.1 else c.options.initial)
      && out.c.text.card == (if replacement.Some? then Some(replacement.value.0) else c.options.card)
      && out.c.status == Saved && !out.c.dirty && out.c.recovery.None? && !out.c.fieldErrors && !out.c.timer
      && !out.c.localStored && out.erase && out.put.None? && out.send.None?
  {
  }

  lemma DiscardWaits(c: Client, replacement: Option<(Card, Document)>)
    requires c.drain != Idle || c.flight != NoFlight
    ensures React(c, Discard(replacement)) == Still(c)
  {
  }

  // With nothing unsaved, a page that shows a card shows its document.
  ghost predicate Mirrors(c: Client) {
    && (c.options.card.Some? ==> c.options.initial == c.options.card.value.content)
    && (!c.dirty && c.text.card.Some? ==> c.text.state == c.text.card.value.content)
  }

  // A replacement brings its card's own document.
  predicate BringsItsText(e: Event) {
    e.Discard? && e.replacement.Some? ==> e.replacement.value.1 == e.replacement.value.0.content
  }

  lemma MirrorsDelivered(c: Client, e: Event)
    requires Core(c) && CanReact(c, e) && e.Delivered? && Mirrors(c) && Answers(c, e)
    ensures Mirrors(React(c, e).c)
  {
    DeliveredLands(c, e.reply, e.merged, e.stored);
  }

  lemma MirrorsTaken(c: Client, errors: bool, stored: bool)
    requires c.recovery.Some? && !c.disposed && c.flight == NoFlight
    ensures FinishRecovery(c, errors, stored).c.dirty && FinishRecovery(c, errors, stored).c.options == c.options
  {
  }

  lemma MirrorsRecover(c: Client, e: Event)
    requires Core(c) && e.Recover? && Mirrors(c) && Patient(c, e)
    ensures Mirrors(React(c, e).c)
  {
    if c.recovery.Some? {
      if c.disposed { RecoveryEdits(c, e.errors, e.stored); } else { MirrorsTaken(c, e.errors, e.stored); }
    }
  }

  lemma MirrorsLoaded(c: Client, e: Event)
    requires Core(c) && e.Loaded? && c.loads > 0 && Mirrors(c) && Patient(c, e)
    ensures Mirrors(React(c, e).c)
  {
    if c.recovery.Some? && !c.disposed && e.loaded.Some? {
      MirrorsTaken(WithCard(c.(loads := c.loads - 1), e.loaded.value), e.errors, e.stored);
    }
  }

  lemma MirrorsQuiet(c: Client, e: Event)
    requires Core(c) && CanReact(c, e) && Quiet(e) && Mirrors(c)
    ensures Mirrors(React(c, e).c)
  {
    SoundStep(c, e);
    QuietStep(c, e);
  }

  lemma MirrorsKept(c: Client, e: Event)
    requires Core(c) && CanReact(c, e) && Mirrors(c) && Answers(c, e) && Patient(c, e) && BringsItsText(e)
    ensures Mirrors(React(c, e).c)
  {
    if Quiet(e) {
      MirrorsQuiet(c, e);
    } else if e.Delivered? {
      MirrorsDelivered(c, e);
    } else if e.Recover? {
      MirrorsRecover(c, e);
    } else if e.Loaded? {
      MirrorsLoaded(c, e);
    }
  }

  // Pages are opened with their card's document, and replacements bring theirs.
  predicate Faithful(step: Step) {
    match step
    case Open(_, _, initial, start, _, _) => start.Some? ==> initial == start.value.content
    case Act(_, e) => BringsItsText(e)
    case _ => true
  }

  lemma StepMirrors(s: System, step: Step, q: PageId)
    requires Inv(s) && CanDo(s, step) && Considerate(s, step) && Faithful(step) && q in Do(s, step).pages
    requires q in s.pages ==> Mirrors(s.pages[q].c)
    ensures Mirrors(Do(s, step).pages[q].c)
  {
    if step.Act? && step.page == q {
      ActAnswers(s, q, step.event);
      assert Sane(s, q);
      MirrorsKept(s.pages[q].c, step.event);
    }
  }

  lemma {:induction false} MirrorsStay(states: seq<System>, steps: seq<Step>, i: nat, q: PageId)
    requires Run(states, steps) && i < |states| && q in states[i].pages
    requires forall k | 0 <= k < |steps| :: Faithful(steps[k])
    ensures Mirrors(states[i].pages[q].c)
    decreases i
  {
    if i > 0 {
      if q in states[i - 1].pages { MirrorsStay(states, steps, i - 1, q); }
      RunInvariant(states, steps, i - 1);
      StepMirrors(states[i - 1], steps[i - 1], q);
    }
  }

  // So in every such run a page that says saved and shows a card shows that card's document, edited
  // before or not, discarded or not.
  lemma SavedShowsTheCard(states: seq<System>, steps: seq<Step>, i: nat, q: PageId)
    requires Run(states, steps) && i < |states| && q in states[i].pages
    requires forall k | 0 <= k < |steps| :: Faithful(steps[k])
    ensures var c := states[i].pages[q].c;
            c.status == Saved && c.text.card.Some? ==> c.text.state == c.text.card.value.content
  {
    MirrorsStay(states, steps, i, q);
    RunInvariant(states, steps, i);
    assert Sane(states[i], q);
  }

  // ---------------------------------------------------------------------------------------------
  // What a page is opened with
  // ---------------------------------------------------------------------------------------------

  // A page opens on what it is given, nothing unsaved and nothing under way; it says recovery exactly
  // if it finds a readable draft, and then offers that draft.
  lemma OpenShows(s: System, step: Step)
    requires step.Open? && CanDo(s, step)
    ensures var t := Do(s, step);
      && s.used in t.pages
      && var c := t.pages[s.used].c;
         && c.text.state == step.initial && c.text.card == step.start && c.text.creationKey == step.key
         && c.text.generation == c.text.acknowledged == 0 && !c.dirty && !c.fieldErrors && !c.timer
         && c.drain == Idle && c.flight == NoFlight && !c.busy && !c.disposed && c.localStored == c.recovery.Some?
         && c.options == Options(step.initial, step.start)
         && c.recovery == (if step.readable && step.slot in s.disk then Some(s.disk[step.slot].draft) else None)
         && c.status == (if c.recovery.Some? then Recovery else Saved)
  {
  }

  ghost predicate OpenedWith(s: System, q: PageId, options: Options) {
    q in s.pages ==> s.pages[q].c.options == options
  }

  lemma OptionsStep(s: System, step: Step, q: PageId, options: Options)
    requires Inv(s) && CanDo(s, step) && q < s.used && OpenedWith(s, q, options)
    ensures q < Do(s, step).used && OpenedWith(Do(s, step), q, options)
  {
    if step.Act? && step.page == q {
      assert Sane(s, q);
      CardKept(s.pages[q].c, step.event);
    }
  }

  lemma {:induction false} OptionsStay(states: seq<System>, steps: seq<Step>, k: nat, j: nat, q: PageId)
    requires Run(states, steps) && k < j < |states| && steps[k].Open? && q == states[k].used
    ensures q < states[j].used && OpenedWith(states[j], q, Options(steps[k].initial, steps[k].start))
    decreases j
  {
    if j == k + 1 {
      OpenShows(states[k], steps[k]);
    } else {
      OptionsStay(states, steps, k, j - 1, q);
      RunInvariant(states, steps, j - 1);
      OptionsStep(states[j - 1], steps[j - 1], q, Options(steps[k].initial, steps[k].start));
    }
  }

  // However long a page has been open and whatever it went through, a discard that goes through brings
  // back what it was opened with, unless it is given a replacement.
  lemma DiscardBringsBack(states: seq<System>, steps: seq<Step>, k: nat, j: nat, q: PageId,
                          replacement: Option<(Card, Document)>)
    requires Run(states, steps) && k < j < |steps| && steps[k].Open? && q == states[k].used
    requires q in states[j].pages && steps[j] == Act(q, Discard(replacement))
    requires states[j].pages[q].c.drain == Idle && states[j].pages[q].c.flight == NoFlight
    ensures q in states[j + 1].pages && states[j].pages[q].slot !in states[j + 1].disk
    ensures var c := states[j + 1].pages[q].c;
      && c.text.state == (if replacement.Some? then replacement.value.1 else steps[k].initial)
      && c.text.card == (if replacement.Some? then Some(replacement.value.0) else steps[k].start)
      && c.status == Saved && !c.dirty
  {
    OptionsStay(states, steps, k, j, q);
    DiscardShows(states[j].pages[q].c, replacement);
  }

  // ---------------------------------------------------------------------------------------------
  // The creation key
  // ---------------------------------------------------------------------------------------------

  predicate AnswersOffer(step: Step, q: PageId) {
    step.Act? && step.page == q && (step.event.Recover? || step.event.Loaded?)
  }

  ghost predicate Keyed(s: System, q: PageId, key: CreationKey) {
    q < s.used && (q in s.pages ==> s.pages[q].c.text.creationKey == key)
  }

  lemma KeyStep(s: System, step: Step, q: PageId, key: CreationKey)
    requires Inv(s) && CanDo(s, step) && Keyed(s, q, key) && !AnswersOffer(step, q)
    ensures Keyed(Do(s, step), q, key)
  {
    if step.Act? && step.page == q {
      assert Sane(s, q);
      KeyKept(s.pages[q].c, step.event);
    }
  }

  lemma KeyKept(c: Client, e: Event)
    requires Core(c) && CanReact(c, e) && !e.Recover? && !e.Loaded?
    ensures React(c, e).c.text.creationKey == c.text.creationKey
  {
    if e.CallCommand? || e.SetBusy? {
      MarkSteady(c, e);
    } else if e.Delivered? {
      DeliverySteady(c, e);
    } else if e.Flush? || e.TimerFires? || e.StartDrain? || e.StartCommand? {
      QuietSteady(c, e);
    } else {
      OtherSteady(c, e);
    }
  }

  // A page that has accepted no offer sends every create, repeated ones included, under the key it was
  // opened with.
  lemma {:induction false} KeyStays(states: seq<System>, steps: seq<Step>, k: nat, j: nat, q: PageId)
    requires Run(states, steps) && k < j < |states| && steps[k].Open? && q == states[k].used
    requires forall m | k < m < j :: !AnswersOffer(steps[m], q)
    ensures Keyed(states[j], q, steps[k].key)
    decreases j
  {
    if j == k + 1 {
      OpenShows(states[k], steps[k]);
    } else {
      KeyStays(states, steps, k, j - 1, q);
      RunInvariant(states, steps, j - 1);
      KeyStep(states[j - 1], steps[j - 1], q, steps[k].key);
    }
  }

  lemma CreatesUnderItsKey(states: seq<System>, steps: seq<Step>, k: nat, j: nat, q: PageId)
    requires Run(states, steps) && k < j < |steps| && steps[k].Open? && q == states[k].used
    requires forall m | k < m <= j :: !AnswersOffer(steps[m], q)
    requires steps[j].Act? && steps[j].page == q && q in states[j].pages
    requires var send := React(states[j].pages[q].c, steps[j].event).send; send.Some? && send.value.Create?
    ensures React(states[j].pages[q].c, steps[j].event).send.value.key == steps[k].key
  {
    KeyStays(states, steps, k, j, q);
    RunInvariant(states, steps, j);
    assert Sane(states[j], q);
    SoundStep(states[j].pages[q].c, steps[j].event);
    KeyKept(states[j].pages[q].c, steps[j].event);
  }

  // Every successful answer to a create went to the key's owner.
  ghost predicate Owned(server: Catalog, env: Envelope) {
    env.request.Create? && env.outcome.Some? && env.outcome.value.Got? ==>
      env.request.key in server.creations && server.creations[env.request.key].owner == env.actor
  }

  ghost predicate AllOwned(s: System) {
    forall r | 0 <= r < |s.mail| :: Owned(s.server, s.mail[r])
  }

  lemma OwnedGrows(server: Catalog, later: Catalog, env: Envelope)
    requires Grows(server, later) && Owned(server, env)
    ensures Owned(later, env)
  {
  }

  lemma HandledOwned(s: System, r: nat, ruling: Ruling)
    requires r < |s.mail|
    ensures Owned(HandleStep(s, r, ruling).server, HandleStep(s, r, ruling).mail[r])
  {
    var env := s.mail[r];
    if env.request.Create? {
      OnlyOwnerIsAnswered(s.server, env.actor, env.request.key, env.request.content, ruling);
    }
  }

  lemma OwnedStep(s: System, step: Step)
    requires CanDo(s, step) && AllOwned(s) && Grows(s.server, Do(s, step).server)
    ensures AllOwned(Do(s, step))
  {
    var t := Do(s, step);
    if step.Handle? {
      HandleFrame(s, step.r, step.ruling);
      HandledOwned(s, step.r, step.ruling);
    }
    forall r | 0 <= r < |t.mail| ensures Owned(t.server, t.mail[r]) {
      if r < |s.mail| && !(step.Handle? && step.r == r) {
        assert t.mail[r] == s.mail[r];
        OwnedGrows(s.server, t.server, s.mail[r]);
      }
    }
  }

  lemma {:induction false} AnswersAreOwned(states: seq<System>, steps: seq<Step>, i: nat)
    requires Run(states, steps) && i < |states|
    ensures AllOwned(states[i])
  {
    if i > 0 {
      AnswersAreOwned(states, steps, i - 1);
      RunInvariant(states, steps, i - 1);
      StepKeeps(states[i - 1], steps[i - 1]);
      OwnedStep(states[i - 1], steps[i - 1]);
    }
  }

  // Over every run, one creation key is only ever answered to one actor, however many repeat it.
  lemma OneOwnerPerKey(states: seq<System>, steps: seq<Step>, i: nat, j: nat, k: nat)
    requires Run(states, steps) && i < |states| && j < |states[i].mail| && k < |states[i].mail|
    requires var a, b := states[i].mail[j], states[i].mail[k];
             && a.request.Create? && b.request.Create? && a.request.key == b.request.key
             && a.outcome.Some? && a.outcome.value.Got? && b.outcome.Some? && b.outcome.value.Got?
    ensures states[i].mail[j].actor == states[i].mail[k].actor
  {
    AnswersAreOwned(states, steps, i);
    assert Owned(states[i].server, states[i].mail[j]) && Owned(states[i].server, states[i].mail[k]);
  }

  // ---------------------------------------------------------------------------------------------
  // What an answer comes to
  // ---------------------------------------------------------------------------------------------

  // A created card is shown with the text the server's metadata was merged into, and that text is saved
  // next; a card that was already edited ends in a conflict instead, and nothing is sent.
  lemma CreateIsFollowedBySave(c: Client, card: Card, merged: Document, stored: bool)
    requires Core(c) && c.drain.Awaiting? && c.drain.creating && !c.disposed && !c.fieldErrors && card.token == 1
    ensures var out := React(c, Delivered(Got(card), merged, stored));
      && out.c.text.card == Some(card) && out.c.text.state == merged && out.c.dirty && out.c.status == Syncing
      && out.send == Some(Save(card.id, 1, merged)) && (out.put.Some? <==> stored)
  {
  }

  lemma EditedCreateConflicts(c: Client, card: Card, merged: Document, stored: bool)
    requires Core(c) && c.drain.Awaiting? && c.drain.creating && !c.disposed && card.token != 1
    ensures var out := React(c, Delivered(Got(card), merged, stored));
      && out.c.text.card == Some(card) && out.c.text.state == merged && out.c.dirty && out.c.status == Conflict
      && out.send.None? && (out.put.Some? <==> stored)
  {
  }

  // An answered save leaves the text alone. If it was the latest, the page is saved and its entry gone;
  // if the text was edited meanwhile, that text is saved next, under the new token.
  lemma SaveIsAcknowledged(c: Client, card: Card, merged: Document, stored: bool)
    requires Core(c) && c.drain.Awaiting? && !c.drain.creating && !c.disposed && !c.fieldErrors
    ensures var out := React(c, Delivered(Got(card), merged, stored));
      && out.c.text.card == Some(card) && out.c.text.state == c.text.state
      && (c.drain.sent == c.text.generation ==> out.c.status == Saved && !out.c.dirty && out.erase)
      && (c.drain.sent != c.text.generation ==>
            out.c.dirty && !out.erase && out.send == Some(Save(card.id, card.token, c.text.state)))
  {
  }

  // A text edited into errors while its drain runs is not sent: the drain ends, the page says invalid.
  lemma InvalidEndsTheDrain(c: Client, card: Card, merged: Document, stored: bool)
    requires Core(c) && c.drain.Awaiting? && !c.drain.creating && !c.disposed && c.fieldErrors
    requires c.drain.sent != c.text.generation && c.flight == NoFlight
    ensures var out := React(c, Delivered(Got(card), merged, stored));
      && out.c.status == Invalid && out.c.drain == Idle && out.send.None? && out.c.dirty && !out.erase
      && out.c.text.state == c.text.state && out.c.text.card == Some(card) && (out.put.Some? <==> stored)
  {
  }

  // A refusal keeps the text, unsaved, and its draft; it shows a conflict exactly if it is one.
  lemma RefusalIsShown(c: Client, conflict: bool, merged: Document, stored: bool)
    requires Core(c) && c.drain.Awaiting? && !c.disposed
    ensures var out := React(c, Delivered(Refused(conflict), merged, stored));
      && out.c.text == c.text && out.c.dirty && out.c.drain == Idle && out.send.None? && !out.erase
      && (out.put.Some? <==> stored) && out.c.localStored == stored
      && out.c.status == (if conflict then Conflict else Failed) && out.c.flight != Flushing
  {
  }

  // After any other failure than a conflict, the next flush sends the text again, under the same key or
  // the same token: unless it was edited meanwhile, exactly the request that failed.
  lemma RetryRepeats(c: Client, merged: Document, stored: bool)
    requires Core(c) && c.drain.Awaiting? && !c.disposed && !c.fieldErrors
    ensures var flushed := After(After(c, Delivered(Refused(false), merged, stored)), Flush);
      && CanReact(flushed, StartDrain)
      && var send := React(flushed, StartDrain).send;
         && send == Some(if c.text.card.None? then Create(c.text.creationKey, c.text.state)
                         else Save(c.text.card.value.id, c.text.card.value.token, c.text.state))
         && (c.drain.sent == c.text.generation ==> send == Outstanding(c))
  {
  }

  // A save of a page somebody has overtaken is turned away as a conflict; delivered, that conflict is
  // shown, the text stays, and its draft is stored.
  lemma StaleSaveConflicts(states: seq<System>, steps: seq<Step>, i: nat, q: PageId, ruling: Ruling,
                           merged: Document, stored: bool)
    requires Run(states, steps) && i < |states| && q in states[i].pages
    requires var s, p := states[i], states[i].pages[q];
      && !p.c.disposed && p.c.drain.Awaiting? && !p.c.drain.creating && p.waiting < |s.mail|
      && s.mail[p.waiting].outcome.None? && CanDo(s, Handle(p.waiting, ruling)) && p.c.text.card.Some?
      && p.c.text.card.value.id in s.server.rows
      && s.server.rows[p.c.text.card.value.id].token != p.c.text.card.value.token
    ensures var s, p := states[i], states[i].pages[q];
            var t := Do(s, Handle(p.waiting, ruling));
      && t.server == s.server && t.mail[p.waiting].outcome == Some(Refused(true)) && q in t.pages
      && CanDo(t, Act(q, Delivered(Refused(true), merged, stored)))
      && var u := Do(t, Act(q, Delivered(Refused(true), merged, stored)));
         && q in u.pages && u.pages[q].c.status == Conflict && u.pages[q].c.dirty && u.pages[q].c.text == p.c.text
         && u.mail == t.mail && (stored ==> p.slot in u.disk && u.disk[p.slot].draft == DraftOf(p.c.text))
  {
    RunInvariant(states, steps, i);
    assert Sane(states[i], q);
    RefusalIsShown(states[i].pages[q].c, true, merged, stored);
  }

  // ---------------------------------------------------------------------------------------------
  // What recovery asks for, and what is forgotten
  // ---------------------------------------------------------------------------------------------

  // A page that shows no card but offers a draft of a component asks for its card, and goes on offering
  // until it comes.
  lemma RecoverAsksForTheCard(c: Client, errors: bool, stored: bool)
    requires c.recovery.Some? && c.text.card.None? && c.recovery.value.componentId.Some?
    ensures var out := React(c, Recover(errors, stored));
      && CanReact(out.c, Loaded(None, errors, stored)) && out.put.None? && out.send.None?
      && React(out.c, Loaded(None, errors, stored)) == Still(c)
  {
  }

  // Work that stops being unsaved leaves no entry: until somebody writes the entry again, the next page
  // opened on it is offered nothing.
  lemma SavedWorkIsForgotten(states: seq<System>, steps: seq<Step>, i: nat, j: nat, q: PageId)
    requires Run(states, steps) && i < j < |steps| && q in states[i].pages && q in states[i + 1].pages
    requires states[i].pages[q].c.dirty && !states[i + 1].pages[q].c.dirty
    requires forall k | i < k < j :: !Touches(states[k], steps[k], states[i].pages[q].slot)
    requires steps[j].Open? && steps[j].slot == states[i].pages[q].slot
    ensures states[j].used in states[j + 1].pages && states[j + 1].pages[states[j].used].c.recovery.None?
  {
    RunInvariant(states, steps, i);
    assert Sane(states[i], q);
    WorkEnds(states[i], steps[i], q);
    EntryStays(states, steps, i + 1, j, states[i].pages[q].slot);
  }

  lemma WorkEnds(s: System, step: Step, q: PageId)
    requires Inv(s) && CanDo(s, step) && q in s.pages && q in Do(s, step).pages
    requires s.pages[q].c.dirty && !Do(s, step).pages[q].c.dirty
    ensures s.pages[q].slot !in Do(s, step).disk
  {
    assert Sane(s, q);
    if step.Act? && step.page == q { EventSteady(s.pages[q].c, step.event); }
  }
}
