/**
 Any number of editor pages, one server, and a network that may delay, lose or answer late.
 A step is one event of one page, one transaction of the server, or something the environment
 does: another writer, a page dying, local storage losing an entry.
 */
module Protocol {
  import opened Prelude
  import opened Client
  import opened ClientInvariants
  import opened EditTokens
  import opened Server

  type PageId = nat
  type Slot = string

  // `origin` is the version the text descends from, `held` that of an offered draft; `waiting`
  // is the page's last request; `disturbed` says that someone else has since written or removed
  // the page's entry in local storage.
  datatype Page = Page(c: Client, actor: nat, slot: Slot, origin: Option<nat>, held: Option<nat>,
                       waiting: nat, disturbed: bool)

  datatype Envelope = Envelope(page: PageId, actor: nat, request: Request, origin: Option<nat>, outcome: Option<Reply>)

  datatype Stored = Stored(draft: Draft, origin: Option<nat>)

  // One accepted save: which version it replaced and which version its text descended from.
  datatype Entry = Entry(page: PageId, id: ComponentId, before: nat, after: nat, origin: Option<nat>, content: Document)

  datatype System = System(
    server: Catalog,
    pages: map<PageId, Page>,
    used: nat,
    disk: map<Slot, Stored>,
    mail: seq<Envelope>,
    accepted: map<(PageId, ComponentId), Document>,
    log: seq<Entry>)

  datatype Step =
    | Open(actor: nat, slot: Slot, initial: Document, start: Option<Card>, key: CreationKey, readable: bool)
    | Act(page: PageId, event: Event)
    | Handle(r: nat, ruling: Ruling)
    | Foreign(id: ComponentId, content: Document, bumps: seq<bool>)
    | ForeignCreate(id: ComponentId, content: Document)
    | Crash(page: PageId)
    | Lose(slot: Slot)

  // An answer the page may hear: the one its last request got, or at any time a network failure.
  predicate Heard(s: System, p: Page, reply: Reply) {
    reply == Refused(false) || (p.waiting < |s.mail| && s.mail[p.waiting].outcome == Some(reply))
  }

  ghost predicate CanAct(s: System, p: Page, e: Event) {
    && CanReact(p.c, e)
    && (e.Delivered? || e.CommandDelivered? ==> Heard(s, p, e.reply))
    && (e.Loaded? && e.loaded.Some? ==> Real(s.server, e.loaded.value))
    && (e.Discard? && e.replacement.Some? ==> Real(s.server, e.replacement.value.0))
  }

  ghost predicate CanDo(s: System, step: Step) {
    match step
    case Open(_, _, _, start, _, _) => start.Some? ==> Real(s.server, start.value)
    case Act(page, e) => page in s.pages && CanAct(s, s.pages[page], e)
    case Handle(r, ruling) =>
      r < |s.mail| && s.mail[r].outcome.None? && ruling.newId !in s.server.rows && ruling.bumps != []
    case Foreign(id, _, bumps) => id in s.server.rows && bumps != []
    case ForeignCreate(id, _) => id !in s.server.rows
    case Crash(page) => page in s.pages
    case Lose(_) => true
  }

  function Opened(s: System, step: Step): Page
    requires step.Open?
  {
    var found := if step.readable && step.slot in s.disk then Some(s.disk[step.slot].draft) else None;
    Page(Construct(Options(step.initial, step.start), step.key, found), step.actor, step.slot, TokenOf(step.start),
         if found.Some? then s.disk[step.slot].origin else None, 0, false)
  }

  // The acting page after its event.
  function Acted(s: System, page: PageId, e: Event): Page
    requires page in s.pages && CanReact(s.pages[page].c, e)
  {
    var p := s.pages[page];
    var out := React(p.c, e);
    p.(c := out.c, origin := OriginAfter(p.c, e, p.origin, p.held),
       waiting := if out.send.Some? then |s.mail| else p.waiting,
       disturbed := p.disturbed && (out.put.None? || out.erase))
  }

  function ActStep(s: System, page: PageId, e: Event): System
    requires page in s.pages && CanReact(s.pages[page].c, e)
  {
    var p, after, out := s.pages[page], Acted(s, page, e), React(s.pages[page].c, e);
    var touches := out.put.Some? || out.erase;
    s.(pages := map q | q in s.pages ::
                  if q == page then after
                  else s.pages[q].(disturbed := s.pages[q].disturbed || (touches && s.pages[q].slot == p.slot)),
       disk := if out.erase then s.disk - {p.slot}
               else if out.put.Some? then s.disk[p.slot := Stored(out.put.value, after.origin)]
               else s.disk,
       mail := if out.send.Some? then s.mail + [Envelope(page, p.actor, out.send.value, after.origin, None)]
               else s.mail)
  }

  function HandleStep(s: System, r: nat, ruling: Ruling): System
    requires r < |s.mail|
  {
    var env := s.mail[r];
    var (server, reply) := Serve(s.server, env.actor, env.request, ruling);
    var answered := s.(server := server, mail := s.mail[r := env.(outcome := Some(reply))]);
    if env.request.Save? && reply.Got? then
      answered.(accepted := s.accepted[(env.page, env.request.id) := env.request.content],
                log := s.log + [Entry(env.page, env.request.id, s.server.rows[env.request.id].token,
                                      reply.card.token, env.origin, env.request.content)])
    else answered
  }

  ghost function Do(s: System, step: Step): System
    requires CanDo(s, step)
  {
    match step
    case Open(_, _, _, _, _, _) => s.(pages := s.pages[s.used := Opened(s, step)], used := s.used + 1)
    case Act(page, e) => ActStep(s, page, e)
    case Handle(r, ruling) => HandleStep(s, r, ruling)
    case Foreign(id, content, bumps) =>
      s.(server := Commit(s.server, id, Updated(s.server.rows[id], content, bumps)))
    case ForeignCreate(id, content) => s.(server := Commit(s.server, id, Row(content, 1, 1, None)))
    case Crash(page) => s.(pages := s.pages - {page})
    case Lose(slot) =>
      s.(disk := s.disk - {slot},
         pages := map q | q in s.pages ::
                    s.pages[q].(disturbed := s.pages[q].disturbed || s.pages[q].slot == slot))
  }
}
