/** The invariant of the whole system, and that every considerate step keeps it. */
module ProtocolInvariant {
  import opened Prelude
  import opened Client
  import opened ClientInvariants
  import opened EditTokens
  import opened Server
  import opened Protocol

  // A request that cites a version cites a committed one, and a write cites the version its
  // text descends from.
  ghost predicate EnvelopeOk(server: Catalog, env: Envelope) {
    && (!env.request.Create? ==>
          && env.request.id in server.rows
          && (env.request.id, env.request.token) in server.history
          && env.origin == Some(env.request.token))
    && (env.outcome.Some? ==> Answered(server, env.request, env.outcome.value))
  }

  ghost predicate MailOk(s: System) {
    forall r | 0 <= r < |s.mail| :: EnvelopeOk(s.server, s.mail[r]) && s.mail[r].page < s.used
  }

  ghost predicate PageOk(server: Catalog, p: Page) {
    && Core(p.c) && Based(p.c) && Contented(p.c)
    && OriginKnown(p.c, p.origin, p.held)
    && (p.c.text.card.Some? ==> Real(server, p.c.text.card.value))
    && (p.c.options.card.Some? ==> Real(server, p.c.options.card.value))
  }

  // The page's outstanding request is its last envelope.
  ghost predicate WaitOk(mail: seq<Envelope>, page: PageId, p: Page) {
    Outstanding(p.c).Some? ==>
      && p.waiting < |mail| && mail[p.waiting].page == page
      && mail[p.waiting].request == Outstanding(p.c).value
  }

  // No other save of this page for this component can still be accepted.
  ghost predicate Spent(s: System, page: PageId, id: ComponentId) {
    id in s.server.rows &&
    forall r | 0 <= r < |s.mail| && s.mail[r].page == page && s.mail[r].outcome.None?
               && s.mail[r].request.Save? && s.mail[r].request.id == id ::
      s.mail[r].request.token < s.server.rows[id].token
  }

  ghost predicate LastAccepted(s: System, page: PageId, id: ComponentId, content: Document) {
    (page, id) in s.accepted && s.accepted[(page, id)] == content && Spent(s, page, id)
  }

  ghost predicate SavedOk(s: System, page: PageId, p: Page) {
    && (p.c.text.acknowledged == p.c.text.generation > 0 ==>
          p.c.text.card.Some? && LastAccepted(s, page, p.c.text.card.value.id, p.c.text.state))
    && (Outstanding(p.c).Some? && Outstanding(p.c).value.Save? && p.waiting < |s.mail|
        && s.mail[p.waiting].outcome.Some? && s.mail[p.waiting].outcome.value.Got? ==>
          LastAccepted(s, page, Outstanding(p.c).value.id, Outstanding(p.c).value.content))
  }

  // Unless someone else touched it, the page's entry is its present draft, or the one it offers.
  ghost predicate DiskOk(disk: map<Slot, Stored>, p: Page) {
    !p.disturbed ==>
      && (p.c.dirty && p.c.localStored ==> p.slot in disk && disk[p.slot].draft == DraftOf(p.c.text))
      && (p.c.recovery.Some? ==> p.slot in disk && disk[p.slot].draft == p.c.recovery.value)
  }

  ghost predicate LogOk(s: System) {
    && (forall i | 0 <= i < |s.log| ::
          && s.log[i].origin == Some(s.log[i].before) && s.log[i].before < s.log[i].after
          && s.log[i].id in s.server.rows && s.log[i].after <= s.server.rows[s.log[i].id].token)
    && (forall i, j | 0 <= i < j < |s.log| && s.log[i].id == s.log[j].id :: s.log[i].after <= s.log[j].before)
  }

  ghost predicate DraftsOk(disk: map<Slot, Stored>) {
    forall slot | slot in disk :: disk[slot].origin == disk[slot].draft.token
  }

  ghost predicate Sane(s: System, q: PageId)
    requires q in s.pages
  {
    && q < s.used
    && PageOk(s.server, s.pages[q])
    && WaitOk(s.mail, q, s.pages[q])
    && SavedOk(s, q, s.pages[q])
    && DiskOk(s.disk, s.pages[q])
  }

  ghost predicate PagesOk(s: System) {
    forall q | q in s.pages :: Sane(s, q)
  }

  ghost predicate Inv(s: System) {
    ServerOk(s.server) && MailOk(s) && LogOk(s) && DraftsOk(s.disk) && PagesOk(s)
  }

  // A page asks for no recovery while a command is pending, and starts no command on a conflict
  // over a card its text is not based on.
  ghost predicate Considerate(s: System, step: Step)
    requires CanDo(s, step)
  {
    step.Act? ==>
      Patient(s.pages[step.page].c, step.event)
      && !(step.event == StartCommand && StaleConflict(s.pages[step.page].c))
  }

  // ---------------------------------------------------------------------------------------------
  // The server moves on
  // ---------------------------------------------------------------------------------------------

  lemma GrowsPageOk(server: Catalog, later: Catalog, p: Page)
    requires Grows(server, later) && PageOk(server, p)
    ensures PageOk(later, p)
  {
  }

  lemma GrowsEnvelopeOk(server: Catalog, later: Catalog, env: Envelope)
    requires ServerOk(server) && Grows(server, later) && EnvelopeOk(server, env)
    ensures EnvelopeOk(later, env)
  {
  }

  // Another writer's commit: only the server changes.
  lemma ServerMovesOn(s: System, later: Catalog)
    requires Inv(s) && ServerOk(later) && Grows(s.server, later)
    ensures Inv(s.(server := later))
  {
    var t := s.(server := later);
    forall r | 0 <= r < |t.mail| ensures EnvelopeOk(later, t.mail[r]) {
      GrowsEnvelopeOk(s.server, later, s.mail[r]);
    }
    forall q | q in t.pages ensures Sane(t, q) {
      assert Sane(s, q);
      GrowsPageOk(s.server, later, s.pages[q]);
      SpentGrows(s, t, q);
    }
  }

  lemma SpentGrows(s: System, t: System, page: PageId)
    requires Grows(s.server, t.server) && t.mail == s.mail
    ensures forall id | Spent(s, page, id) :: Spent(t, page, id)
  {
  }

  // ---------------------------------------------------------------------------------------------
  // The server handles a request
  // ---------------------------------------------------------------------------------------------

  lemma HandleServer(s: System, r: nat, ruling: Ruling)
    requires ServerOk(s.server) && MailOk(s) && CanDo(s, Handle(r, ruling))
    ensures var t := HandleStep(s, r, ruling);
            && ServerOk(t.server) && Grows(s.server, t.server) && EnvelopeOk(t.server, t.mail[r])
  {
    var env := s.mail[r];
    ServeKeeps(s.server, env.actor, env.request, ruling);
    GrowsEnvelopeOk(s.server, HandleStep(s, r, ruling).server, env);
  }

  lemma HandleOtherMail(s: System, r: nat, ruling: Ruling, k: nat)
    requires ServerOk(s.server) && MailOk(s) && CanDo(s, Handle(r, ruling)) && k < |s.mail| && k != r
    requires Grows(s.server, HandleStep(s, r, ruling).server)
    ensures EnvelopeOk(HandleStep(s, r, ruling).server, HandleStep(s, r, ruling).mail[k])
  {
    GrowsEnvelopeOk(s.server, HandleStep(s, r, ruling).server, s.mail[k]);
  }

  lemma HandleMail(s: System, r: nat, ruling: Ruling)
    requires ServerOk(s.server) && MailOk(s) && CanDo(s, Handle(r, ruling))
    ensures var t := HandleStep(s, r, ruling);
            ServerOk(t.server) && Grows(s.server, t.server) && MailOk(t)
  {
    HandleServer(s, r, ruling);
    var t := HandleStep(s, r, ruling);
    forall k | 0 <= k < |t.mail| ensures EnvelopeOk(t.server, t.mail[k]) && t.mail[k].page < t.used {
      if k != r { HandleOtherMail(s, r, ruling, k); }
    }
  }

  // An accepted save is the last its page can get accepted for that component.
  lemma HandleSpends(s: System, r: nat, ruling: Ruling)
    requires ServerOk(s.server) && MailOk(s) && CanDo(s, Handle(r, ruling))
    requires s.mail[r].request.Save? && Serve(s.server, s.mail[r].actor, s.mail[r].request, ruling).1.Got?
    ensures LastAccepted(HandleStep(s, r, ruling), s.mail[r].page, s.mail[r].request.id, s.mail[r].request.content)
  {
  }

  // The requests of page `q` that can still be accepted only become fewer.
  ghost predicate FewerPending(s: System, t: System, q: PageId) {
    forall k | 0 <= k < |t.mail| && t.mail[k].page == q && t.mail[k].outcome.None? && t.mail[k].request.Save? ::
      k < |s.mail| && s.mail[k].page == q && s.mail[k].outcome.None? && s.mail[k].request == t.mail[k].request
  }

  lemma LastKept(s: System, t: System, q: PageId, id: ComponentId, content: Document)
    requires LastAccepted(s, q, id, content) && Grows(s.server, t.server) && FewerPending(s, t, q)
    requires (q, id) in t.accepted && t.accepted[(q, id)] == s.accepted[(q, id)]
    ensures LastAccepted(t, q, id, content)
  {
  }

  ghost predicate Accepts(s: System, r: nat, ruling: Ruling, q: PageId, id: ComponentId)
    requires r < |s.mail|
  {
    && s.mail[r].page == q && s.mail[r].request.Save? && s.mail[r].request.id == id
    && Serve(s.server, s.mail[r].actor, s.mail[r].request, ruling).1.Got?
  }

  lemma NoneAccepted(s: System, r: nat, ruling: Ruling, q: PageId, id: ComponentId)
    requires CanDo(s, Handle(r, ruling)) && Spent(s, q, id)
    ensures !Accepts(s, r, ruling, q, id)
  {
    if s.mail[r].request.Save? { AcceptedExactly(s.server, s.mail[r].actor, s.mail[r].request, ruling); }
  }

  lemma HandleFewer(s: System, r: nat, ruling: Ruling, q: PageId)
    requires CanDo(s, Handle(r, ruling))
    ensures FewerPending(s, HandleStep(s, r, ruling), q)
  {
  }

  lemma HandleAccepted(s: System, r: nat, ruling: Ruling, q: PageId, id: ComponentId)
    requires CanDo(s, Handle(r, ruling)) && (q, id) in s.accepted && !Accepts(s, r, ruling, q, id)
    ensures var t := HandleStep(s, r, ruling);
            (q, id) in t.accepted && t.accepted[(q, id)] == s.accepted[(q, id)]
  {
  }

  lemma HandleLast(s: System, r: nat, ruling: Ruling, q: PageId, id: ComponentId, content: Document)
    requires ServerOk(s.server) && MailOk(s) && CanDo(s, Handle(r, ruling)) && LastAccepted(s, q, id, content)
    ensures LastAccepted(HandleStep(s, r, ruling), q, id, content)
  {
    HandleServer(s, r, ruling);
    NoneAccepted(s, r, ruling, q, id);
    HandleFewer(s, r, ruling, q);
    HandleAccepted(s, r, ruling, q, id);
    LastKept(s, HandleStep(s, r, ruling), q, id, content);
  }

  lemma HandleSaved(s: System, r: nat, ruling: Ruling, q: PageId)
    requires Inv(s) && CanDo(s, Handle(r, ruling)) && q in s.pages
    ensures SavedOk(HandleStep(s, r, ruling), q, s.pages[q])
  {
    var c, t := s.pages[q].c, HandleStep(s, r, ruling);
    assert Sane(s, q);
    if c.text.acknowledged == c.text.generation > 0 {
      HandleLast(s, r, ruling, q, c.text.card.value.id, c.text.state);
    }
    var waiting := s.pages[q].waiting;
    if Outstanding(c).Some? && Outstanding(c).value.Save? && t.mail[waiting].outcome.Some?
       && t.mail[waiting].outcome.value.Got? {
      if waiting == r {
        HandleSpends(s, r, ruling);
      } else {
        HandleLast(s, r, ruling, q, Outstanding(c).value.id, Outstanding(c).value.content);
      }
    }
  }

  lemma LogGrows(s: System, t: System, entry: Entry)
    requires LogOk(s) && Grows(s.server, t.server) && t.log == s.log + [entry]
    requires entry.id in s.server.rows && entry.before == s.server.rows[entry.id].token
    requires entry.origin == Some(entry.before) && entry.before < entry.after
    requires entry.id in t.server.rows && entry.after <= t.server.rows[entry.id].token
    ensures LogOk(t)
  {
  }

  lemma LogStays(s: System, t: System)
    requires LogOk(s) && Grows(s.server, t.server) && t.log == s.log
    ensures LogOk(t)
  {
  }

  // What an accepted save adds to the log.
  lemma HandleEntry(s: System, r: nat, ruling: Ruling)
    requires MailOk(s) && CanDo(s, Handle(r, ruling)) && s.mail[r].request.Save?
    requires Serve(s.server, s.mail[r].actor, s.mail[r].request, ruling).1.Got?
    ensures var t, id := HandleStep(s, r, ruling), s.mail[r].request.id;
      && id in s.server.rows && id in t.server.rows && |t.log| == |s.log| + 1 && t.log[..|s.log|] == s.log
      && var entry := t.log[|s.log|];
         && entry.id == id && entry.before == s.server.rows[id].token && entry.origin == Some(entry.before)
         && entry.before < entry.after == t.server.rows[id].token
  {
    assert EnvelopeOk(s.server, s.mail[r]);
    AcceptedExactly(s.server, s.mail[r].actor, s.mail[r].request, ruling);
  }

  lemma HandleLog(s: System, r: nat, ruling: Ruling)
    requires ServerOk(s.server) && MailOk(s) && LogOk(s) && CanDo(s, Handle(r, ruling))
    ensures LogOk(HandleStep(s, r, ruling))
  {
    HandleMail(s, r, ruling);
    var t := HandleStep(s, r, ruling);
    if s.mail[r].request.Save? && Serve(s.server, s.mail[r].actor, s.mail[r].request, ruling).1.Got? {
      HandleEntry(s, r, ruling);
      LogGrows(s, t, t.log[|s.log|]);
    } else {
      LogStays(s, t);
    }
  }

  lemma HandleFrame(s: System, r: nat, ruling: Ruling)
    requires r < |s.mail|
    ensures var t := HandleStep(s, r, ruling);
            && t.pages == s.pages && t.disk == s.disk && t.used == s.used && |t.mail| == |s.mail|
            && forall k | 0 <= k < |s.mail| ::
                 t.mail[k].page == s.mail[k].page && t.mail[k].request == s.mail[k].request
  {
  }

  lemma HandlePage(s: System, t: System, q: PageId)
    requires q in s.pages && Sane(s, q) && Grows(s.server, t.server)
    requires t.pages == s.pages && t.disk == s.disk && t.used == s.used && |t.mail| == |s.mail|
    requires forall k | 0 <= k < |s.mail| :: t.mail[k].page == s.mail[k].page && t.mail[k].request == s.mail[k].request
    requires SavedOk(t, q, s.pages[q])
    ensures Sane(t, q)
  {
  }

  lemma HandleKeeps(s: System, r: nat, ruling: Ruling)
    requires Inv(s) && CanDo(s, Handle(r, ruling))
    ensures Inv(HandleStep(s, r, ruling)) && Grows(s.server, HandleStep(s, r, ruling).server)
  {
    HandleMail(s, r, ruling);
    HandleLog(s, r, ruling);
    var t := HandleStep(s, r, ruling);
    HandleFrame(s, r, ruling);
    forall q | q in t.pages ensures Sane(t, q) {
      HandleSaved(s, r, ruling, q);
      HandlePage(s, t, q);
    }
  }

  // ---------------------------------------------------------------------------------------------
  // A page acts
  // ---------------------------------------------------------------------------------------------

  // A delivered answer answers what the page asked.
  lemma ActHears(s: System, q: PageId, e: Event)
    requires Inv(s) && CanDo(s, Act(q, e)) && Settles(e) && e.reply.Got?
    ensures var p := s.pages[q];
            && Outstanding(p.c).Some? && p.waiting < |s.mail| && s.mail[p.waiting].outcome == Some(e.reply)
            && Answered(s.server, Outstanding(p.c).value, e.reply)
  {
  }

  lemma ActAnswers(s: System, q: PageId, e: Event)
    requires Inv(s) && CanDo(s, Act(q, e))
    ensures Answers(s.pages[q].c, e)
  {
  }

  lemma ActCards(s: System, q: PageId, e: Event)
    requires Inv(s) && CanDo(s, Act(q, e))
    ensures var c := React(s.pages[q].c, e).c;
            && c.options == s.pages[q].c.options
            && (c.text.card.Some? ==> Real(s.server, c.text.card.value))
  {
    assert Sane(s, q);
    CardKept(s.pages[q].c, e);
    if Settles(e) && e.reply.Got? { ActHears(s, q, e); }
  }

  lemma ActPage(s: System, q: PageId, e: Event)
    requires Inv(s) && CanDo(s, Act(q, e)) && Considerate(s, Act(q, e))
    ensures PageOk(s.server, Acted(s, q, e))
  {
    var p := s.pages[q];
    assert Sane(s, q);
    ActAnswers(s, q, e);
    ActCards(s, q, e);
    SoundStep(p.c, e);
    BasedKeptExactly(p.c, e);
    OriginKept(p.c, e, p.origin, p.held);
    ContentedKept(p.c, e);
  }

  // What a page sends cites the version its text descends from.
  lemma ActSends(s: System, q: PageId, e: Event)
    requires Inv(s) && CanDo(s, Act(q, e)) && Considerate(s, Act(q, e))
    requires React(s.pages[q].c, e).send.Some?
    ensures var send := React(s.pages[q].c, e).send.value;
            EnvelopeOk(s.server, Envelope(q, s.pages[q].actor, send, Acted(s, q, e).origin, None))
  {
    ActPage(s, q, e);
    SoundStep(s.pages[q].c, e);
  }

  lemma ActWait(s: System, q: PageId, e: Event)
    requires Inv(s) && CanDo(s, Act(q, e))
    ensures WaitOk(ActStep(s, q, e).mail, q, Acted(s, q, e))
  {
    assert Sane(s, q);
    SoundStep(s.pages[q].c, e);
  }

  lemma ActDisk(s: System, q: PageId, e: Event)
    requires Inv(s) && CanDo(s, Act(q, e)) && Considerate(s, Act(q, e))
    ensures DiskOk(ActStep(s, q, e).disk, Acted(s, q, e))
  {
    assert Sane(s, q);
    SoundStep(s.pages[q].c, e);
  }

  lemma ActDrafts(s: System, q: PageId, e: Event)
    requires Inv(s) && CanDo(s, Act(q, e)) && Considerate(s, Act(q, e))
    ensures DraftsOk(ActStep(s, q, e).disk)
  {
    assert Sane(s, q);
    SoundStep(s.pages[q].c, e);
    ActPage(s, q, e);
  }

  lemma ActFewer(s: System, q: PageId, e: Event)
    requires q in s.pages && CanReact(s.pages[q].c, e)
    requires React(s.pages[q].c, e).send.None? || !React(s.pages[q].c, e).send.value.Save?
    ensures FewerPending(s, ActStep(s, q, e), q)
  {
  }

  // A page with everything acknowledged sends no further save.
  lemma AcknowledgedSendsNoSave(c: Client, e: Event)
    requires Core(c) && CanReact(c, e)
    ensures var out := React(c, e);
            out.c.text.acknowledged == out.c.text.generation ==> out.send.None? || !out.send.value.Save?
  {
    SoundStep(c, e);
  }

  lemma ActSavedText(s: System, q: PageId, e: Event)
    requires Inv(s) && CanDo(s, Act(q, e))
    ensures var text := React(s.pages[q].c, e).c.text;
            text.acknowledged == text.generation > 0 ==>
              text.card.Some? && LastAccepted(ActStep(s, q, e), q, text.card.value.id, text.state)
  {
    var c, text, t := s.pages[q].c, React(s.pages[q].c, e).c.text, ActStep(s, q, e);
    assert Sane(s, q);
    if text.acknowledged == text.generation > 0 {
      AcksStep(c, e);
      if Settles(e) && e.reply.Got? { ActHears(s, q, e); }
      AcknowledgedSendsNoSave(c, e);
      ActFewer(s, q, e);
      LastKept(s, t, q, text.card.value.id, text.state);
    }
  }

  lemma ActSaved(s: System, q: PageId, e: Event)
    requires Inv(s) && CanDo(s, Act(q, e))
    ensures SavedOk(ActStep(s, q, e), q, Acted(s, q, e))
  {
    var c, out, t := s.pages[q].c, React(s.pages[q].c, e), ActStep(s, q, e);
    ActSavedText(s, q, e);
    assert Sane(s, q);
    SoundStep(c, e);
    if out.send.None? && Outstanding(out.c).Some? && Outstanding(out.c).value.Save? {
      assert FewerPending(s, t, q);
      if SavedAnswer(s, q) {
        LastKept(s, t, q, Outstanding(c).value.id, Outstanding(c).value.content);
      }
    }
  }

  ghost predicate SavedAnswer(s: System, q: PageId)
    requires q in s.pages
  {
    var p := s.pages[q];
    && Outstanding(p.c).Some? && Outstanding(p.c).value.Save? && p.waiting < |s.mail|
    && s.mail[p.waiting].outcome.Some? && s.mail[p.waiting].outcome.value.Got?
  }

  // Every other page only finds its local entry disturbed, and more mail.
  ghost predicate OnlyDisturbed(s: System, t: System, q: PageId) {
    && q in s.pages && q in t.pages && t.pages[q] == s.pages[q].(disturbed := t.pages[q].disturbed)
    && t.server == s.server && t.accepted == s.accepted && t.used == s.used && s.mail <= t.mail
    && FewerPending(s, t, q)
    && (!t.pages[q].disturbed ==>
          && !s.pages[q].disturbed && (s.pages[q].slot in t.disk <==> s.pages[q].slot in s.disk)
          && (s.pages[q].slot in s.disk ==> t.disk[s.pages[q].slot] == s.disk[s.pages[q].slot]))
  }

  lemma ActDisturbs(s: System, q: PageId, e: Event, other: PageId)
    requires q in s.pages && CanReact(s.pages[q].c, e) && other in s.pages && other != q
    ensures OnlyDisturbed(s, ActStep(s, q, e), other)
  {
  }

  lemma DisturbedSaved(s: System, t: System, q: PageId)
    requires OnlyDisturbed(s, t, q) && Sane(s, q)
    ensures SavedOk(t, q, t.pages[q])
  {
    var c := s.pages[q].c;
    if c.text.acknowledged == c.text.generation > 0 {
      LastKept(s, t, q, c.text.card.value.id, c.text.state);
    }
    if SavedAnswer(s, q) {
      LastKept(s, t, q, Outstanding(c).value.id, Outstanding(c).value.content);
    }
  }

  lemma DisturbedSane(s: System, t: System, q: PageId)
    requires OnlyDisturbed(s, t, q) && Sane(s, q)
    ensures Sane(t, q)
  {
    DisturbedSaved(s, t, q);
  }

  lemma ActMail(s: System, q: PageId, e: Event)
    requires Inv(s) && CanDo(s, Act(q, e)) && Considerate(s, Act(q, e))
    ensures MailOk(ActStep(s, q, e))
  {
    var t := ActStep(s, q, e);
    assert Sane(s, q);
    if React(s.pages[q].c, e).send.Some? { ActSends(s, q, e); }
    forall r | 0 <= r < |t.mail| ensures EnvelopeOk(t.server, t.mail[r]) && t.mail[r].page < t.used {
      if r < |s.mail| { assert t.mail[r] == s.mail[r]; }
    }
  }

  lemma ActSelf(s: System, q: PageId, e: Event)
    requires Inv(s) && CanDo(s, Act(q, e)) && Considerate(s, Act(q, e))
    ensures q in ActStep(s, q, e).pages && Sane(ActStep(s, q, e), q)
  {
    assert Sane(s, q);
    ActPage(s, q, e);
    ActWait(s, q, e);
    ActDisk(s, q, e);
    ActSaved(s, q, e);
  }

  lemma ActKeeps(s: System, q: PageId, e: Event)
    requires Inv(s) && CanDo(s, Act(q, e)) && Considerate(s, Act(q, e))
    ensures Inv(ActStep(s, q, e))
  {
    var t := ActStep(s, q, e);
    ActMail(s, q, e);
    ActDrafts(s, q, e);
    forall other | other in t.pages
      ensures Sane(t, other)
    {
      if other == q {
        ActSelf(s, q, e);
      } else {
        ActDisturbs(s, q, e, other);
        DisturbedSane(s, t, other);
      }
    }
  }

  // ---------------------------------------------------------------------------------------------
  // Pages come and go
  // ---------------------------------------------------------------------------------------------

  lemma OpenKeeps(s: System, step: Step)
    requires Inv(s) && step.Open? && CanDo(s, step)
    ensures Inv(Do(s, step))
  {
    var t := Do(s, step);
    forall q | q in t.pages
      ensures Sane(t, q)
    {
      if q != s.used {
        assert Sane(s, q);
        SavedSame(s, t, q);
      }
    }
  }

  // What a page was told stays true while the server, the mail and the record of saves stand.
  lemma SavedSame(s: System, t: System, q: PageId)
    requires q in s.pages && q in t.pages && t.pages[q].c == s.pages[q].c && t.pages[q].waiting == s.pages[q].waiting
    requires t.server == s.server && t.mail == s.mail && t.accepted == s.accepted
    requires SavedOk(s, q, s.pages[q])
    ensures SavedOk(t, q, t.pages[q])
  {
  }

  lemma CrashKeeps(s: System, page: PageId)
    requires Inv(s) && page in s.pages
    ensures Inv(Do(s, Crash(page)))
  {
    var t := Do(s, Crash(page));
    forall q | q in t.pages ensures Sane(t, q) {
      assert Sane(s, q);
      SavedSame(s, t, q);
    }
  }

  lemma LoseKeeps(s: System, slot: Slot)
    requires Inv(s)
    ensures Inv(Do(s, Lose(slot)))
  {
    var t := Do(s, Lose(slot));
    forall q | q in t.pages
      ensures Sane(t, q)
    {
      assert Sane(s, q);
      SavedSame(s, t, q);
    }
  }

  lemma ForeignKeeps(s: System, step: Step)
    requires Inv(s) && CanDo(s, step) && (step.Foreign? || step.ForeignCreate?)
    ensures Inv(Do(s, step)) && Grows(s.server, Do(s, step).server)
  {
    if step.Foreign? {
      CommitGrows(s.server, step.id, Updated(s.server.rows[step.id], step.content, step.bumps));
    } else {
      CommitGrows(s.server, step.id, Row(step.content, 1, 1, None));
    }
    ServerMovesOn(s, Do(s, step).server);
  }

  // Every considerate step keeps the invariant, and the server only grows.
  lemma StepKeeps(s: System, step: Step)
    requires Inv(s) && CanDo(s, step) && Considerate(s, step)
    ensures Inv(Do(s, step)) && Grows(s.server, Do(s, step).server)
  {
    match step {
      case Open(_, _, _, _, _, _) => OpenKeeps(s, step);
      case Act(page, e) => ActKeeps(s, page, e);
      case Handle(r, ruling) => HandleKeeps(s, r, ruling);
      case Foreign(_, _, _) => ForeignKeeps(s, step);
      case ForeignCreate(_, _) => ForeignKeeps(s, step);
      case Crash(page) => CrashKeeps(s, page);
      case Lose(slot) => LoseKeeps(s, slot);
    }
  }
}
