/** What every event of one synchronisation controller keeps. */
module ClientInvariants {
  import opened Prelude
  import opened Client

  // The bookkeeping invariant, kept by every event without exception.
  ghost predicate Core(c: Client) {
    && c.text.acknowledged <= c.text.generation
    && (c.dirty <==> c.text.acknowledged != c.text.generation)
    && (c.flight == Flushing ==> c.drain != Idle)
    && (c.flight == Running ==> !c.dirty && c.text.card.Some? && c.recovery.None? && c.status != Conflict)
    && (c.drain != Idle ==> c.dirty && c.recovery.None? && c.status != Conflict)
    && (c.drain.Awaiting? ==> Sent(c.text, c.drain))
    && (c.recovery.Some? ==> c.text.generation == 0 && !c.timer && c.localStored
                             && (c.status == Recovery || c.status == Failed))
    && (c.status == Saved ==> !c.dirty)
    && (c.status == Dirty ==> c.dirty && !c.fieldErrors)
    && (c.status == Dirty && !c.disposed ==> c.timer || c.drain != Idle)
    && (c.status == Syncing && !c.disposed ==> c.drain.Awaiting?)
  }

  // The awaited request carries the text of its generation.
  ghost predicate Sent(text: Text, drain: Drain)
    requires drain.Awaiting?
  {
    && text.acknowledged < drain.sent <= text.generation
    && (drain.creating <==> text.card.None?)
    && (drain.sent == text.generation ==> drain.content == text.state)
  }

  // The one request the controller is waiting for.
  function Outstanding(c: Client): Option<Request> {
    if c.drain.Awaiting? then
      Some(if c.text.card.None? then Create(c.text.creationKey, c.drain.content)
           else Save(c.text.card.value.id, c.text.card.value.token, c.drain.content))
    else if c.flight == Running && c.text.card.Some? then
      Some(Command(c.text.card.value.id, c.text.card.value.token))
    else None
  }

  // What one step promises about the controller `c` it starts from. Three things: the
  // bookkeeping is kept; at most one request is outstanding, and it is the last one sent; and
  // whatever local storage was last told is the present draft.
  ghost predicate Sound(c: Client, settled: bool, out: Out) {
    && Core(out.c)
    && (if settled then Outstanding(out.c) == out.send
        else if out.send.Some? then Outstanding(c) == None && Outstanding(out.c) == out.send
        else Outstanding(out.c) == Outstanding(c))
    && (out.send.Some? ==> !out.c.disposed)
    && DraftFresh(c, out)
  }

  ghost predicate DraftFresh(c: Client, out: Out) {
    && (out.put.Some? ==> out.put == Some(DraftOf(out.c.text)) && !out.c.disposed && out.c.recovery.None?)
    && (out.c.localStored && out.c.dirty ==>
          !out.erase && (out.put.Some? || (c.localStored && c.dirty && out.c.text == c.text)))
    && (out.c.recovery.Some? ==> out.c.recovery == c.recovery && out.put.None? && !out.erase)
  }

  lemma SoundEdit(c: Client, state: Document, errors: bool, stored: bool)
    requires Core(c)
    ensures Sound(c, false, EditStep(c, state, errors, stored))
  {
  }

  lemma SoundFlush(c: Client)
    requires Core(c)
    ensures Sound(c, false, Still(TryFlush(c).0))
  {
  }

  // The controller inside a running drain, wherever its loop stands.
  ghost predicate InDrain(c: Client) {
    && c.text.acknowledged <= c.text.generation && c.dirty
    && c.drain != Idle && c.recovery.None? && c.flight != Running
    && c.status != Conflict && c.status != Saved
    && (c.status == Dirty ==> !c.fieldErrors)
  }

  // What the rest of a drain promises, `put` being the draft written just before.
  ghost predicate Drained(c: Client, put: Option<Draft>, out: Out) {
    && Core(out.c)
    && Outstanding(out.c) == out.send && (out.send.Some? ==> !out.c.disposed)
    && out.put == put && out.c.text == c.text && out.c.recovery.None?
    && out.c.disposed == c.disposed && out.c.options == c.options
    && (out.c.status == Conflict <==> c.status == Conflict)
    && (out.c.localStored && out.c.dirty ==> !out.erase && c.localStored)
  }

  ghost predicate DrainEnds(c: Client, settled: Settled) {
    && c.text.acknowledged <= c.text.generation && (c.dirty <==> c.text.acknowledged != c.text.generation)
    && c.flight != Running && c.recovery.None?
    && (settled.Thrown? || c.disposed || (c.status == Saved && !c.dirty))
    && (c.disposed || c.status == Saved || c.status == Conflict || c.status == Failed || c.status == Invalid)
    && (c.status == Conflict <==> settled == Thrown(true))
    && (c.status == Dirty ==> c.dirty && !c.fieldErrors)
    && (c.status == Saved ==> !c.dirty && !c.localStored)
  }

  lemma CoreAfterFlush(c: Client, settled: Settled)
    requires DrainEnds(c, settled)
    ensures Core(AfterFlush(c.(drain := Idle), settled).0)
  {
    var idle := c.(drain := Idle);
    if c.flight != Flushing {
      assert Core(idle);
    } else if settled.Fulfilled? && !c.disposed && c.text.card.Some? {
      assert Core(idle.(flight := Running));
    } else {
      assert Core(CommandFails(idle, settled == Thrown(true)));
    }
  }

  lemma AfterFlushKeeps(c: Client, settled: Settled)
    requires DrainEnds(c, settled)
    ensures var (after, send) := AfterFlush(c.(drain := Idle), settled);
      && Outstanding(after) == send && (send.Some? ==> !after.disposed)
      && after.text == c.text && after.recovery == c.recovery && after.disposed == c.disposed
      && after.options == c.options && after.localStored == c.localStored && after.dirty == c.dirty
      && (after.status == Conflict <==> c.status == Conflict)
  {
    var idle := c.(drain := Idle);
    if c.flight != Flushing {
      assert AfterFlush(idle, settled) == (idle, None);
    } else if settled.Thrown? {
      assert AfterFlush(idle, settled) == (CommandFails(idle, settled.conflict), None);
    } else if c.disposed || c.text.card.None? {
      assert AfterFlush(idle, settled) == (CommandFails(idle, false), None);
    }
  }

  lemma DrainedFinish(c: Client, settled: Settled, put: Option<Draft>, erase: bool)
    requires DrainEnds(c, settled) && (erase ==> c.status == Saved)
    ensures Drained(c, put, Finish(c, settled, put, erase))
  {
    CoreAfterFlush(c, settled);
    AfterFlushKeeps(c, settled);
  }

  lemma DrainedHead(c: Client, put: Option<Draft>)
    requires InDrain(c)
    ensures Drained(c, put, DrainHead(c, put))
  {
    if c.text.acknowledged == c.text.generation {
      DrainedFinish(c.(status := Saved, dirty := false, localStored := false), Fulfilled, put, true);
    } else if c.disposed {
      DrainedFinish(c, Fulfilled, put, false);
    } else if c.fieldErrors {
      DrainedFinish(c.(status := Invalid), Thrown(false), put, false);
    }
  }

  lemma DrainedFails(c: Client, conflict: bool, stored: bool)
    requires InDrain(c) && c.text.acknowledged != c.text.generation
    ensures Drained(c.(localStored := stored, status := if conflict then Conflict else Failed),
                    if stored then Some(DraftOf(c.text)) else None, DrainFails(c, conflict, stored))
  {
    var out := Persist(c.(status := if conflict then Conflict else Failed, dirty := true), stored);
    DrainedFinish(out.c, Thrown(conflict), out.put, false);
  }

  // The text a delivery leaves, before the drain goes on or ends.
  function Landed(text: Text, drain: Drain, card: Card, merged: Document): Text
    requires drain.Awaiting?
  {
    if drain.creating && card.token != 1 then Shown(text, drain, card, merged) else Acked(text, drain, card, merged)
  }

  // Where a delivery leaves the controller before the drain goes on or ends.
  function Landing(c: Client, reply: Reply, merged: Document, stored: bool): Client
    requires c.drain.Awaiting?
  {
    if c.disposed then c
    else if reply.Refused? then c.(localStored := stored, status := if reply.conflict then Conflict else Failed)
    else c.(text := Landed(c.text, c.drain, reply.card, merged), localStored := stored,
            status := if c.drain.creating && reply.card.token != 1 then Conflict else c.status)
  }

  ghost predicate Lands(c: Client, reply: Reply, merged: Document, stored: bool)
    requires c.drain.Awaiting?
  {
    var at := Landing(c, reply, merged, stored);
    Drained(at, if stored && !c.disposed then Some(DraftOf(at.text)) else None, DeliveredStep(c, reply, merged, stored))
  }

  lemma StillInDrain(c: Client, card: Card, merged: Document)
    requires Core(c) && c.drain.Awaiting? && !c.disposed
    ensures InDrain(c.(text := Landed(c.text, c.drain, card, merged)))
  {
  }

  // A create that came back past its first version.
  lemma LandsLate(c: Client, card: Card, merged: Document, stored: bool)
    requires Core(c) && c.drain.Awaiting? && !c.disposed && c.drain.creating && card.token != 1
    ensures Lands(c, Got(card), merged, stored)
  {
    StillInDrain(c, card, merged);
    DrainedFails(c.(text := Landed(c.text, c.drain, card, merged)), true, stored);
  }

  lemma LandsAcked(c: Client, card: Card, merged: Document, stored: bool)
    requires Core(c) && c.drain.Awaiting? && !c.disposed && !(c.drain.creating && card.token != 1)
    ensures Lands(c, Got(card), merged, stored)
  {
    StillInDrain(c, card, merged);
    var out := Persist(c.(text := Landed(c.text, c.drain, card, merged)), stored);
    DrainedHead(out.c, out.put);
  }

  lemma DeliveredLands(c: Client, reply: Reply, merged: Document, stored: bool)
    requires Core(c) && c.drain.Awaiting?
    ensures Lands(c, reply, merged, stored)
  {
    if c.disposed {
      DrainedFinish(c, Fulfilled, None, false);
    } else if reply.Refused? {
      DrainedFails(c, reply.conflict, stored);
    } else if c.drain.creating && reply.card.token != 1 {
      LandsLate(c, reply.card, merged, stored);
    } else {
      LandsAcked(c, reply.card, merged, stored);
    }
  }

  lemma SoundDelivered(c: Client, reply: Reply, merged: Document, stored: bool)
    requires Core(c) && c.drain.Awaiting?
    ensures Sound(c, true, DeliveredStep(c, reply, merged, stored))
  {
    DeliveredLands(c, reply, merged, stored);
  }

  lemma SoundStartDrain(c: Client)
    requires Core(c) && c.drain == Scheduled
    ensures Sound(c, false, DrainHead(c, None))
  {
  }

  lemma SoundRejected(c: Client)
    requires Core(c) && c.flight == Called && TryFlush(c).1.Rejected?
    ensures Sound(c, false, StartCommandStep(c))
  {
  }

  lemma SoundJoined(c: Client)
    requires Core(c) && c.flight == Called && TryFlush(c).1.Joined?
    ensures Sound(c, false, StartCommandStep(c))
  {
  }

  lemma SoundResolved(c: Client)
    requires Core(c) && c.flight == Called && TryFlush(c).1.Resolved?
    ensures Sound(c, false, StartCommandStep(c))
  {
  }

  lemma SoundStartCommand(c: Client)
    requires Core(c) && c.flight == Called
    ensures Sound(c, false, StartCommandStep(c))
  {
    match TryFlush(c).1
    case Rejected => SoundRejected(c);
    case Joined => SoundJoined(c);
    case Resolved => SoundResolved(c);
  }

  lemma SoundCommandDelivered(c: Client, reply: Reply)
    requires Core(c) && c.flight == Running
    ensures Sound(c, true, Still(CommandDeliveredStep(c, reply)))
  {
  }

  lemma SoundFinishRecovery(c: Client, errors: bool, stored: bool)
    requires Core(c) && c.recovery.Some?
    ensures Sound(c, false, FinishRecovery(c, errors, stored))
  {
    SoundEdit(Adopt(c), c.recovery.value.state, errors, stored);
  }

  lemma SoundRecover(c: Client, errors: bool, stored: bool)
    requires Core(c)
    ensures Sound(c, false, RecoverStep(c, errors, stored))
  {
    if c.recovery.Some? { SoundFinishRecovery(c, errors, stored); }
  }

  lemma SoundWithCard(c: Client, card: Card, errors: bool, stored: bool)
    requires Core(c) && c.recovery.Some?
    ensures Sound(c, false, FinishRecovery(WithCard(c, card), errors, stored))
  {
    assert Core(WithCard(c, card)) && Outstanding(WithCard(c, card)) == Outstanding(c) == None;
    SoundFinishRecovery(WithCard(c, card), errors, stored);
  }

  lemma SoundLoaded(c: Client, loaded: Option<Card>, errors: bool, stored: bool)
    requires Core(c) && c.loads > 0
    ensures Sound(c.(loads := c.loads - 1), false, LoadedStep(c, loaded, errors, stored))
  {
    if loaded.Some? && !c.disposed && c.recovery.Some? {
      SoundWithCard(c.(loads := c.loads - 1), loaded.value, errors, stored);
    }
  }

  lemma SoundDiscard(c: Client, replacement: Option<(Card, Document)>)
    requires Core(c)
    ensures Sound(c, false, DiscardStep(c, replacement))
  {
  }

  predicate Settles(e: Event) {
    e.Delivered? || e.CommandDelivered?
  }

  lemma SoundMark(c: Client, e: Event)
    requires Core(c) && (e.CallCommand? || e.SetBusy? || e.Dispose?)
    ensures Sound(c, false, React(c, e))
  {
  }

  lemma SoundQuiet(c: Client, e: Event)
    requires Core(c) && CanReact(c, e) && (e.Flush? || e.TimerFires? || e.StartDrain? || e.StartCommand?)
    ensures Sound(c, false, React(c, e))
  {
    if e.Flush? || e.TimerFires? {
      SoundFlush(c);
    } else if e.StartDrain? {
      SoundStartDrain(c);
    } else {
      SoundStartCommand(c);
    }
  }

  lemma SoundSettled(c: Client, e: Event)
    requires Core(c) && CanReact(c, e) && Settles(e)
    ensures Sound(c, true, React(c, e))
  {
    if e.Delivered? { SoundDelivered(c, e.reply, e.merged, e.stored); } else { SoundCommandDelivered(c, e.reply); }
  }

  lemma SoundOffer(c: Client, e: Event)
    requires Core(c) && CanReact(c, e) && (e.Recover? || e.Loaded?)
    ensures Sound(c, false, React(c, e))
  {
    if e.Recover? { SoundRecover(c, e.errors, e.stored); } else { SoundLoaded(c, e.loaded, e.errors, e.stored); }
  }

  // Every event keeps the bookkeeping, at most one request outstanding, and the draft fresh.
  lemma SoundStep(c: Client, e: Event)
    requires Core(c) && CanReact(c, e)
    ensures Sound(c, Settles(e), React(c, e))
  {
    if Settles(e) {
      SoundSettled(c, e);
    } else if e.Recover? || e.Loaded? {
      SoundOffer(c, e);
    } else if e.Edit? {
      SoundEdit(c, e.state, e.errors, e.stored);
    } else if e.Discard? {
      SoundDiscard(c, e.replacement);
    } else if e.CallCommand? || e.SetBusy? || e.Dispose? {
      SoundMark(c, e);
    } else {
      SoundQuiet(c, e);
    }
  }

  // ---------------------------------------------------------------------------------------------
  // What the text on screen is based on
  // ---------------------------------------------------------------------------------------------

  // Events that leave the text alone.
  predicate Quiet(e: Event) {
    e.Flush? || e.TimerFires? || e.StartDrain? || e.CallCommand? || e.StartCommand? || e.SetBusy? || e.Dispose?
  }

  lemma QuietStep(c: Client, e: Event)
    requires Core(c) && CanReact(c, e) && Quiet(e)
    ensures React(c, e).c.text == c.text && React(c, e).c.recovery == c.recovery
    ensures React(c, e).c.options == c.options && (c.disposed ==> React(c, e).c.disposed)
    ensures e != StartCommand ==> (React(c, e).c.status == Conflict <==> c.status == Conflict)
  {
    if e.StartDrain? { DrainedHead(c, None); }
  }

  // What an edit makes of the text.
  ghost predicate Edited(c: Client, state: Document, d: Client) {
    && d.recovery == c.recovery && d.disposed == c.disposed && d.options == c.options
    && d.text == if Closed(c) then c.text else c.text.(state := state, generation := c.text.generation + 1)
  }

  lemma RecoveryEdits(c: Client, errors: bool, stored: bool)
    requires c.recovery.Some?
    ensures var out := FinishRecovery(c, errors, stored).c;
            && Edited(Adopt(c), c.recovery.value.state, out)
            && (TokenOf(c.text.card) != c.recovery.value.token ==> out.status == Conflict && !out.timer)
  {
  }

  // Unless a conflict is showing, the token the page will send is the one its text is based on.
  ghost predicate Based(c: Client) {
    c.status != Conflict ==> c.text.baseToken == TokenOf(c.text.card)
  }

  // A conflict showing over a card that is not the one the text is based on.
  ghost predicate StaleConflict(c: Client) {
    c.status == Conflict && c.text.baseToken != TokenOf(c.text.card)
  }

  lemma BasedStartCommand(c: Client)
    requires Core(c) && Based(c) && c.flight == Called
    ensures Based(StartCommandStep(c).c) <==> !StaleConflict(c)
  {
  }

  lemma BasedRecovers(c: Client, errors: bool, stored: bool)
    requires c.recovery.Some?
    ensures Based(FinishRecovery(c, errors, stored).c)
  {
  }

  lemma BasedDelivered(c: Client, reply: Reply, merged: Document, stored: bool)
    requires Core(c) && Based(c) && c.drain.Awaiting?
    ensures Based(DeliveredStep(c, reply, merged, stored).c)
  {
    DeliveredLands(c, reply, merged, stored);
  }

  lemma BasedQuiet(c: Client, e: Event)
    requires Core(c) && Based(c) && CanReact(c, e) && Quiet(e) && e != StartCommand
    ensures Based(React(c, e).c)
  {
    QuietStep(c, e);
  }

  lemma BasedRecover(c: Client, e: Event)
    requires Core(c) && Based(c) && e.Recover?
    ensures Based(React(c, e).c)
  {
    if c.recovery.Some? { BasedRecovers(c, e.errors, e.stored); }
  }

  lemma BasedLoaded(c: Client, e: Event)
    requires Core(c) && Based(c) && e.Loaded? && c.loads > 0
    ensures Based(React(c, e).c)
  {
    if c.recovery.Some? && e.loaded.Some? {
      BasedRecovers(WithCard(c.(loads := c.loads - 1), e.loaded.value), e.errors, e.stored);
    }
  }

  lemma BasedOther(c: Client, e: Event)
    requires Core(c) && Based(c) && CanReact(c, e) && (e.Edit? || e.CommandDelivered? || e.Discard?)
    ensures Based(React(c, e).c)
  {
  }

  // Exactly one event leaves `Based`: a command started on a stale conflict, whose rejected
  // flush replaces the conflict by a plain error.
  lemma BasedKeptExactly(c: Client, e: Event)
    requires Core(c) && Based(c) && CanReact(c, e)
    ensures Based(React(c, e).c) <==> !(e == StartCommand && StaleConflict(c))
  {
    if e == StartCommand {
      BasedStartCommand(c);
    } else if Quiet(e) {
      BasedQuiet(c, e);
    } else if e.Delivered? {
      BasedDelivered(c, e.reply, e.merged, e.stored);
    } else if e.Recover? {
      BasedRecover(c, e);
    } else if e.Loaded? {
      BasedLoaded(c, e);
    } else {
      BasedOther(c, e);
    }
  }

  // The version the text on screen descends from, told apart from `baseToken`: a loaded card, an
  // accepted save of this page, or whatever a recovered draft descended from (`held`).
  function OriginAfter(c: Client, e: Event, origin: Option<nat>, held: Option<nat>): Option<nat>
    requires CanReact(c, e)
  {
    match e
    case Delivered(Got(card), _, _) =>
      if c.disposed || (c.drain.creating && card.token != 1) then origin else Some(card.token)
    case CommandDelivered(Got(card)) => if c.disposed then origin else Some(card.token)
    case Recover(_, _) => if TakesDraft(c, e) then held else origin
    case Loaded(_, _, _) => if TakesDraft(c, e) then held else origin
    case Discard(replacement) =>
      if c.drain != Idle || c.flight != NoFlight then origin
      else if replacement.Some? then Some(replacement.value.0.token) else TokenOf(c.options.card)
    case _ => origin
  }

  // The event turns the offered draft into the current text.
  predicate TakesDraft(c: Client, e: Event)
    requires CanReact(c, e)
  {
    c.recovery.Some? && React(c, e).c.recovery.None? && !e.Discard? && !c.disposed && c.flight == NoFlight
  }

  // When the offered draft can be taken.
  predicate CanTake(c: Client) {
    c.recovery.Some? && !c.disposed && c.flight == NoFlight
  }

  lemma TakesOnRecover(c: Client, e: Event)
    requires Core(c) && e.Recover?
    ensures TakesDraft(c, e) <==> CanTake(c) && (c.text.card.Some? || c.recovery.value.componentId.None?)
  {
    if c.recovery.Some? { RecoveryEdits(c, e.errors, e.stored); }
  }

  lemma TakesOnLoad(c: Client, e: Event)
    requires Core(c) && e.Loaded? && c.loads > 0
    ensures TakesDraft(c, e) <==> CanTake(c) && e.loaded.Some?
  {
    if c.recovery.Some? && e.loaded.Some? {
      RecoveryEdits(WithCard(c.(loads := c.loads - 1), e.loaded.value), e.errors, e.stored);
    }
  }

  // An offered draft is taken at once where the page shows a card or the draft has none, else when its
  // card has come; never by a page that is disposed or in a command.
  lemma TakesDraftExactly(c: Client, e: Event)
    requires Core(c) && CanReact(c, e)
    ensures TakesDraft(c, e) <==>
      && c.recovery.Some? && !c.disposed && c.flight == NoFlight
      && (|| (e.Recover? && (c.text.card.Some? || c.recovery.value.componentId.None?))
          || (e.Loaded? && e.loaded.Some?))
  {
    if Quiet(e) {
      QuietStep(c, e);
    } else if e.Recover? {
      TakesOnRecover(c, e);
    } else if e.Loaded? {
      TakesOnLoad(c, e);
    }
  }

  // The page does not ask for recovery while a command is pending.
  predicate Patient(c: Client, e: Event) {
    e.Recover? || e.Loaded? ==> c.flight == NoFlight
  }

  ghost predicate OriginKnown(c: Client, origin: Option<nat>, held: Option<nat>) {
    && (c.recovery.None? && !c.disposed ==> origin == c.text.baseToken)
    && (c.recovery.Some? ==> held == c.recovery.value.token)
  }

  lemma OriginDelivered(c: Client, e: Event, origin: Option<nat>, held: Option<nat>)
    requires Core(c) && CanReact(c, e) && e.Delivered? && OriginKnown(c, origin, held)
    ensures OriginKnown(React(c, e).c, OriginAfter(c, e, origin, held), held)
  {
    DeliveredLands(c, e.reply, e.merged, e.stored);
  }

  lemma OriginFinishes(c: Client, errors: bool, stored: bool)
    requires c.recovery.Some? && c.flight == NoFlight
    ensures var d := FinishRecovery(c, errors, stored).c;
            d.recovery.None? && d.text.baseToken == c.recovery.value.token && d.disposed == c.disposed
  {
    RecoveryEdits(c, errors, stored);
  }

  lemma OriginRecovers(c: Client, e: Event, origin: Option<nat>, held: Option<nat>)
    requires Core(c) && CanReact(c, e) && e.Recover? && OriginKnown(c, origin, held) && Patient(c, e)
    ensures OriginKnown(React(c, e).c, OriginAfter(c, e, origin, held), held)
  {
    TakesDraftExactly(c, e);
    if c.recovery.Some? { OriginFinishes(c, e.errors, e.stored); }
  }

  lemma OriginLoads(c: Client, e: Event, origin: Option<nat>, held: Option<nat>)
    requires Core(c) && CanReact(c, e) && e.Loaded? && OriginKnown(c, origin, held) && Patient(c, e)
    ensures OriginKnown(React(c, e).c, OriginAfter(c, e, origin, held), held)
  {
    TakesDraftExactly(c, e);
    if c.recovery.Some? && e.loaded.Some? {
      OriginFinishes(WithCard(c.(loads := c.loads - 1), e.loaded.value), e.errors, e.stored);
    }
  }

  // A patient page always knows which version its text descends from: it is `baseToken`.
  lemma OriginKept(c: Client, e: Event, origin: Option<nat>, held: Option<nat>)
    requires Core(c) && CanReact(c, e) && OriginKnown(c, origin, held) && Patient(c, e)
    ensures OriginKnown(React(c, e).c, OriginAfter(c, e, origin, held), held)
  {
    if Quiet(e) {
      QuietStep(c, e);
    } else if e.Delivered? {
      OriginDelivered(c, e, origin, held);
    } else if e.Recover? {
      OriginRecovers(c, e, origin, held);
    } else if e.Loaded? {
      OriginLoads(c, e, origin, held);
    } else {
      match e {
        case Edit(_, _, _) =>
        case CommandDelivered(_) =>
        case Discard(_) =>
      }
    }
  }

  // Recovery takes effect exactly when nothing closes the editor to edits.
  lemma RecoveryTakesExactly(c: Client, errors: bool, stored: bool)
    requires Core(c) && c.recovery.Some?
    ensures var out := FinishRecovery(c, errors, stored).c;
            out.dirty && out.text.state == c.recovery.value.state <==> !c.disposed && c.flight == NoFlight
  {
  }

  // Once everything is acknowledged, the card holds exactly the text on screen.
  ghost predicate Contented(c: Client) {
    c.text.acknowledged == c.text.generation > 0 ==>
      c.text.card.Some? && c.text.card.value.content == c.text.state
  }

  // The card that answers holds what was sent; a command does not change the document.
  ghost predicate Answers(c: Client, e: Event)
    requires CanReact(c, e)
  {
    && (e.Delivered? && e.reply.Got? && !c.drain.creating ==> e.reply.card.content == c.drain.content)
    && (e.CommandDelivered? && e.reply.Got? && c.text.card.Some? ==>
          e.reply.card.content == c.text.card.value.content)
  }

  lemma ContentedDelivered(c: Client, e: Event)
    requires Core(c) && CanReact(c, e) && e.Delivered? && Contented(c) && Answers(c, e)
    ensures Contented(React(c, e).c)
  {
    DeliveredLands(c, e.reply, e.merged, e.stored);
  }

  lemma ContentedRecovers(c: Client, e: Event)
    requires Core(c) && CanReact(c, e) && (e.Recover? || e.Loaded?) && Contented(c)
    ensures Contented(React(c, e).c)
  {
    if c.recovery.Some? {
      if e.Recover? {
        RecoveryEdits(c, e.errors, e.stored);
      } else if e.loaded.Some? {
        RecoveryEdits(WithCard(c.(loads := c.loads - 1), e.loaded.value), e.errors, e.stored);
      }
    }
  }

  lemma ContentedKept(c: Client, e: Event)
    requires Core(c) && CanReact(c, e) && Contented(c) && Answers(c, e)
    ensures Contented(React(c, e).c)
  {
    if Quiet(e) {
      QuietStep(c, e);
    } else if e.Delivered? {
      ContentedDelivered(c, e);
    } else if e.Recover? || e.Loaded? {
      ContentedRecovers(c, e);
    } else {
      match e {
        case Edit(_, _, _) =>
        case CommandDelivered(_) =>
        case Discard(_) =>
      }
    }
  }

  // The card an event can bring.
  ghost predicate Brings(c: Client, e: Event, card: Card) {
    || (e.Delivered? && e.reply == Got(card))
    || (e.CommandDelivered? && e.reply == Got(card))
    || (e.Loaded? && e.loaded == Some(card))
    || (e.Discard? && (c.options.card == Some(card) || (e.replacement.Some? && e.replacement.value.0 == card)))
  }

  ghost predicate CardFrom(c: Client, e: Event, d: Client) {
    && d.options == c.options
    && (d.text.card == c.text.card || d.text.card.None? || Brings(c, e, d.text.card.value))
  }

  lemma CardDelivered(c: Client, reply: Reply, merged: Document, stored: bool)
    requires Core(c) && c.drain.Awaiting?
    ensures CardFrom(c, Delivered(reply, merged, stored), DeliveredStep(c, reply, merged, stored).c)
  {
    DeliveredLands(c, reply, merged, stored);
  }

  lemma CardRecover(c: Client, errors: bool, stored: bool)
    ensures CardFrom(c, Recover(errors, stored), RecoverStep(c, errors, stored).c)
  {
    if c.recovery.Some? { RecoveryEdits(c, errors, stored); }
  }

  lemma CardLoaded(c: Client, loaded: Option<Card>, errors: bool, stored: bool)
    requires c.loads > 0
    ensures CardFrom(c, Loaded(loaded, errors, stored), LoadedStep(c, loaded, errors, stored).c)
  {
    if loaded.Some? && c.recovery.Some? {
      RecoveryEdits(WithCard(c.(loads := c.loads - 1), loaded.value), errors, stored);
    }
  }

  lemma CardKept(c: Client, e: Event)
    requires Core(c) && CanReact(c, e)
    ensures CardFrom(c, e, React(c, e).c)
  {
    if Quiet(e) {
      QuietStep(c, e);
    } else {
      match e {
        case Delivered(reply, merged, stored) => CardDelivered(c, reply, merged, stored);
        case Recover(errors, stored) => CardRecover(c, errors, stored);
        case Loaded(loaded, errors, stored) => CardLoaded(c, loaded, errors, stored);
        case Edit(_, _, _) =>
        case CommandDelivered(_) =>
        case Discard(_) =>
      }
    }
  }

  // How a page comes to have everything acknowledged: it had, or a save of its present text has
  // just been answered.
  ghost predicate AcksFrom(c: Client, e: Event, text: Text) {
    text.acknowledged == text.generation > 0 ==>
      || (c.text.acknowledged == c.text.generation > 0 && text.state == c.text.state
          && (text.card == c.text.card || (e.CommandDelivered? && e.reply.Got? && text.card == Some(e.reply.card))))
      || (e.Delivered? && e.reply.Got? && c.drain.Awaiting? && !c.drain.creating
          && text.state == c.drain.content && text.card == Some(e.reply.card))
  }

  lemma AcksDelivered(c: Client, reply: Reply, merged: Document, stored: bool)
    requires Core(c) && c.drain.Awaiting?
    ensures AcksFrom(c, Delivered(reply, merged, stored), DeliveredStep(c, reply, merged, stored).c.text)
  {
    DeliveredLands(c, reply, merged, stored);
  }

  lemma AcksRecovers(c: Client, e: Event)
    requires Core(c) && CanReact(c, e) && (e.Recover? || e.Loaded?)
    ensures AcksFrom(c, e, React(c, e).c.text)
  {
    if c.recovery.Some? {
      if e.Recover? {
        RecoveryEdits(c, e.errors, e.stored);
      } else if e.loaded.Some? {
        RecoveryEdits(WithCard(c.(loads := c.loads - 1), e.loaded.value), e.errors, e.stored);
      }
    }
  }

  lemma AcksStep(c: Client, e: Event)
    requires Core(c) && CanReact(c, e)
    ensures AcksFrom(c, e, React(c, e).c.text)
  {
    if Quiet(e) {
      QuietStep(c, e);
    } else if e.Recover? || e.Loaded? {
      AcksRecovers(c, e);
    } else {
      match e {
        case Delivered(reply, merged, stored) => AcksDelivered(c, reply, merged, stored);
        case Edit(_, _, _) =>
        case CommandDelivered(_) =>
        case Discard(_) =>
      }
    }
  }
}
