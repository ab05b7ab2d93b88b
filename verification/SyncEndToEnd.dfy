/** From the last edit to the server: a page left alone gets its text there. */
module SyncEndToEnd {
  import opened Prelude
  import opened Client
  import opened ClientInvariants
  import opened EditTokens
  import opened Server
  import opened Protocol
  import opened ProtocolInvariant
  import opened SyncTheorems

  // The server's answer to the page's outstanding request, delivered or not.
  function Answer(s: System, p: Page): Option<Reply> {
    if Outstanding(p.c).Some? && p.waiting < |s.mail| then s.mail[p.waiting].outcome else None
  }

  // The newest card the page has or is about to get.
  function Newest(s: System, p: Page): Option<Card> {
    if Answer(s, p).Some? && Answer(s, p).value.Got? then Some(Answer(s, p).value.card) else p.c.text.card
  }

  predicate UpToDate(server: Catalog, card: Card) {
    card.id in server.rows && server.rows[card.id].token == card.token
  }

  // Nobody has overtaken the page: the server is at its newest card.
  predicate Current(s: System, p: Page) {
    Newest(s, p).Some? ==> UpToDate(s.server, Newest(s, p).value)
  }

  // The answer on its way is a success; to a create, the first version of a component.
  predicate Promised(s: System, p: Page) {
    Answer(s, p).Some? ==>
      Answer(s, p).value.Got? && (Outstanding(p.c).value.Create? ==> Answer(s, p).value.card.token == 1)
  }

  predicate HandlesOwn(step: Step, p: Page) {
    step.Handle? && Outstanding(p.c).Some? && step.r == p.waiting
  }

  // The key is unused, or names a component of the same owner that nobody has changed yet.
  predicate FreshKey(server: Catalog, actor: nat, request: Request) {
    request.Create? && request.key in server.creations ==>
      var found := server.creations[request.key];
      found.owner == actor && found.component in server.rows && server.rows[found.component].token == 1
  }

  // Somebody else writes the page's component.
  ghost predicate Overtakes(s: System, step: Step, p: Page)
    requires CanDo(s, step)
  {
    && !HandlesOwn(step, p) && Newest(s, p).Some?
    && var id, later := Newest(s, p).value.id, Do(s, step).server;
       id in s.server.rows && (id !in later.rows || later.rows[id] != s.server.rows[id])
  }

  // Nobody edits the page, closes it or overtakes it, nothing denies its requests, and the answers
  // it hears are the server's. Whether the server accepts them is not assumed.
  ghost predicate LeftAlone(s: System, step: Step, q: PageId)
    requires CanDo(s, step) && q in s.pages
  {
    var p := s.pages[q];
    && step != Crash(q)
    && (step.Act? && step.page == q ==>
          Calm(step.event) && (Settles(step.event) ==> Answer(s, p) == Some(step.event.reply)))
    && (HandlesOwn(step, p) ==>
          !step.ruling.deny && FreshKey(s.server, s.mail[step.r].actor, s.mail[step.r].request))
    && !Overtakes(s, step, p)
  }

  // ---------------------------------------------------------------------------------------------
  // Nobody overtakes it, and its requests succeed
  // ---------------------------------------------------------------------------------------------

  ghost predicate Holds(s: System, q: PageId) {
    q in s.pages && Current(s, s.pages[q]) && Promised(s, s.pages[q])
  }

  // An answer becomes the page's card.
  lemma AnswerShows(s: System, q: PageId, e: Event)
    requires Inv(s) && CanDo(s, Act(q, e)) && Settles(e) && !s.pages[q].c.disposed
    requires Answer(s, s.pages[q]) == Some(e.reply) && e.reply.Got?
    ensures React(s.pages[q].c, e).c.text.card == Some(e.reply.card) == Newest(s, s.pages[q])
  {
    assert Sane(s, q);
    if e.Delivered? { DeliveredLands(s.pages[q].c, e.reply, e.merged, e.stored); }
  }

  lemma SettledHolds(s: System, q: PageId, e: Event)
    requires Inv(s) && CanDo(s, Act(q, e)) && Holds(s, q) && LeftAlone(s, Act(q, e), q) && !s.pages[q].c.disposed
    requires Settles(e)
    ensures Holds(ActStep(s, q, e), q)
  {
    assert Sane(s, q);
    SoundStep(s.pages[q].c, e);
    AnswerShows(s, q, e);
    assert Answer(ActStep(s, q, e), Acted(s, q, e)).None?;
  }

  // A page that sends has no answer yet; one that does not keeps the answer it had.
  lemma AnswerAfter(s: System, t: System, p: Page, after: Page, sent: bool)
    requires after.c.text == p.c.text && s.mail <= t.mail
    requires sent ==>
      Outstanding(p.c).None? && after.waiting == |s.mail| < |t.mail| && t.mail[|s.mail|].outcome.None?
    requires !sent ==> Outstanding(after.c) == Outstanding(p.c) && after.waiting == p.waiting && t.mail == s.mail
    ensures Newest(t, after) == Newest(s, p)
    ensures Answer(t, after).Some? ==> Answer(t, after) == Answer(s, p) && Outstanding(after.c) == Outstanding(p.c)
  {
  }

  lemma QuietSends(c: Client, e: Event)
    requires Core(c) && CanReact(c, e) && Quiet(e)
    ensures var out := React(c, e);
      && out.c.text == c.text
      && if out.send.Some? then Outstanding(c).None? else Outstanding(out.c) == Outstanding(c)
  {
    SoundStep(c, e);
    QuietStep(c, e);
  }

  lemma QuietAnswer(s: System, q: PageId, e: Event)
    requires Inv(s) && CanDo(s, Act(q, e)) && Quiet(e)
    ensures var t, p, after := ActStep(s, q, e), s.pages[q], Acted(s, q, e);
      && t.pages[q] == after && Newest(t, after) == Newest(s, p)
      && (Answer(t, after).Some? ==> Answer(t, after) == Answer(s, p) && Outstanding(after.c) == Outstanding(p.c))
  {
    assert Sane(s, q);
    QuietSends(s.pages[q].c, e);
    AnswerAfter(s, ActStep(s, q, e), s.pages[q], Acted(s, q, e), React(s.pages[q].c, e).send.Some?);
  }

  lemma QuietHolds(s: System, q: PageId, e: Event)
    requires Inv(s) && CanDo(s, Act(q, e)) && Holds(s, q) && Quiet(e)
    ensures Holds(ActStep(s, q, e), q)
  {
    QuietAnswer(s, q, e);
    assert ActStep(s, q, e).server == s.server;
  }

  // A page's own event only moves its newest card from the answer to the page.
  lemma ActHolds(s: System, q: PageId, e: Event)
    requires Inv(s) && CanDo(s, Act(q, e)) && Holds(s, q) && LeftAlone(s, Act(q, e), q) && !s.pages[q].c.disposed
    ensures Holds(ActStep(s, q, e), q)
  {
    if Settles(e) { SettledHolds(s, q, e); } else { QuietHolds(s, q, e); }
  }

  // The server accepts the outstanding request of a page it is current with.
  lemma OwnAccepted(s: System, q: PageId, r: nat, ruling: Ruling)
    requires Inv(s) && CanDo(s, Handle(r, ruling)) && Holds(s, q)
    requires HandlesOwn(Handle(r, ruling), s.pages[q]) && LeftAlone(s, Handle(r, ruling), q)
    ensures var (later, reply) := Serve(s.server, s.mail[r].actor, s.mail[r].request, ruling);
      reply.Got? && UpToDate(later, reply.card) && (s.mail[r].request.Create? ==> reply.card.token == 1)
  {
    assert Sane(s, q);
    if !s.mail[r].request.Create? { AcceptedExactly(s.server, s.mail[r].actor, s.mail[r].request, ruling); }
  }

  lemma OwnHolds(s: System, q: PageId, r: nat, ruling: Ruling)
    requires Inv(s) && CanDo(s, Handle(r, ruling)) && Holds(s, q)
    requires HandlesOwn(Handle(r, ruling), s.pages[q]) && LeftAlone(s, Handle(r, ruling), q)
    ensures Holds(HandleStep(s, r, ruling), q)
  {
    OwnAccepted(s, q, r, ruling);
    assert Sane(s, q);
    HandleFrame(s, r, ruling);
    assert Answer(HandleStep(s, r, ruling), s.pages[q])
        == Some(Serve(s.server, s.mail[r].actor, s.mail[r].request, ruling).1);
  }

  // Any other step leaves the page and its answer as they are.
  lemma OtherAnswer(s: System, step: Step, q: PageId)
    requires CanDo(s, step) && q in s.pages && q < s.used && WaitOk(s.mail, q, s.pages[q]) && step != Crash(q)
    requires !(step.Act? && step.page == q) && !HandlesOwn(step, s.pages[q])
    ensures var t := Do(s, step);
      q in t.pages && t.pages[q].c == s.pages[q].c && Answer(t, t.pages[q]) == Answer(s, s.pages[q])
  {
  }

  lemma NotOvertaken(s: System, step: Step, p: Page)
    requires CanDo(s, step) && !HandlesOwn(step, p) && !Overtakes(s, step, p) && Current(s, p) && Newest(s, p).Some?
    ensures UpToDate(Do(s, step).server, Newest(s, p).value)
  {
  }

  lemma OtherHolds(s: System, step: Step, q: PageId)
    requires Inv(s) && CanDo(s, step) && Holds(s, q) && LeftAlone(s, step, q)
    requires !(step.Act? && step.page == q) && !HandlesOwn(step, s.pages[q])
    ensures Holds(Do(s, step), q) && Do(s, step).pages[q].c == s.pages[q].c
  {
    assert Sane(s, q);
    OtherAnswer(s, step, q);
    if Newest(s, s.pages[q]).Some? { NotOvertaken(s, step, s.pages[q]); }
  }

  lemma StaysHeld(s: System, step: Step, q: PageId)
    requires Inv(s) && CanDo(s, step) && Holds(s, q) && LeftAlone(s, step, q) && !s.pages[q].c.disposed
    ensures Holds(Do(s, step), q)
    ensures !(step.Act? && step.page == q) ==> Do(s, step).pages[q].c == s.pages[q].c
  {
    if step.Act? && step.page == q {
      ActHolds(s, q, step.event);
    } else if HandlesOwn(step, s.pages[q]) {
      OwnHolds(s, q, step.r, step.ruling);
    } else {
      OtherHolds(s, step, q);
    }
  }

  // ---------------------------------------------------------------------------------------------
  // So its text gets there
  // ---------------------------------------------------------------------------------------------

  // The step brings the page an answer of its drain.
  predicate Brought(step: Step, q: PageId) {
    step.Act? && step.page == q && step.event.Delivered?
  }

  function Arrivals(steps: seq<Step>, q: PageId): nat {
    if steps == [] then 0
    else Arrivals(steps[..|steps| - 1], q) + if Brought(steps[|steps| - 1], q) then 1 else 0
  }

  lemma ArrivalsNext(steps: seq<Step>, i: nat, j: nat, q: PageId)
    requires i <= j < |steps|
    ensures Arrivals(steps[i..j + 1], q) == Arrivals(steps[i..j], q) + if Brought(steps[j], q) then 1 else 0
  {
    assert steps[i..j + 1][..j - i] == steps[i..j];
  }

  ghost predicate OnItsWay(s: System, q: PageId) {
    && Holds(s, q) && Saving(s.pages[q].c) && s.pages[q].c.text.generation > 0
    && (s.pages[q].c.drain == Idle ==> s.pages[q].c.status == Saved)
  }

  lemma CalmGeneration(c: Client, e: Event)
    requires Core(c) && CanReact(c, e) && Calm(e)
    ensures React(c, e).c.text.generation == c.text.generation
  {
    if Quiet(e) { QuietStep(c, e); } else if e.Delivered? { DeliveredLands(c, e.reply, e.merged, e.stored); }
  }

  lemma ActsOnItsWay(s: System, e: Event, q: PageId)
    requires Inv(s) && CanDo(s, Act(q, e)) && OnItsWay(s, q) && LeftAlone(s, Act(q, e), q)
    ensures var t := ActStep(s, q, e);
      OnItsWay(t, q) && Need(s.pages[q].c) == Need(t.pages[q].c) + (if e.Delivered? then 1 else 0)
  {
    ActHolds(s, q, e);
    assert Sane(s, q);
    CalmStep(s.pages[q].c, e);
    CalmGeneration(s.pages[q].c, e);
  }

  lemma StaysOnItsWay(s: System, step: Step, q: PageId)
    requires Inv(s) && CanDo(s, step) && OnItsWay(s, q) && LeftAlone(s, step, q)
    ensures var t := Do(s, step);
      OnItsWay(t, q) && Need(s.pages[q].c) == Need(t.pages[q].c) + (if Brought(step, q) then 1 else 0)
  {
    if step.Act? && step.page == q {
      ActsOnItsWay(s, step.event, q);
    } else {
      StaysHeld(s, step, q);
    }
  }

  ghost predicate LeftAloneFrom(states: seq<System>, steps: seq<Step>, i: nat, j: nat, q: PageId)
    requires Run(states, steps) && i <= j < |states|
  {
    forall k | i <= k < j :: q in states[k].pages && LeftAlone(states[k], steps[k], q)
  }

  // The answers a page on its way still needs.
  ghost function Way(s: System, q: PageId): Option<nat> {
    if OnItsWay(s, q) then Some(Need(s.pages[q].c)) else None
  }

  // A step on the way uses up one of them exactly if it brings the page an answer.
  lemma RunNears(states: seq<System>, steps: seq<Step>, k: nat, q: PageId)
    requires Run(states, steps) && k < |steps| && q in states[k].pages && LeftAlone(states[k], steps[k], q)
    requires Way(states[k], q).Some?
    ensures Way(states[k + 1], q).Some?
    ensures Way(states[k], q).value == Way(states[k + 1], q).value + if Brought(steps[k], q) then 1 else 0
  {
    RunInvariant(states, steps, k);
    StaysOnItsWay(states[k], steps[k], q);
  }

  lemma {:induction false} CountsDown(ways: seq<Option<nat>>, steps: seq<Step>, i: nat, j: nat, q: PageId)
    requires |ways| == |steps| + 1 && i <= j < |ways| && ways[i].Some?
    requires forall k | i <= k < j :: ways[k].Some? ==>
               ways[k + 1].Some? && ways[k].value == ways[k + 1].value + if Brought(steps[k], q) then 1 else 0
    ensures ways[j].Some? && ways[j].value + Arrivals(steps[i..j], q) == ways[i].value
    decreases j - i
  {
    if i < j {
      CountsDown(ways, steps, i, j - 1, q);
      assert ways[j - 1 + 1] == ways[j];
      ArrivalsNext(steps, i, j - 1, q);
    }
  }

  lemma StaysOnItsWayFrom(states: seq<System>, steps: seq<Step>, i: nat, j: nat, q: PageId)
    requires Run(states, steps) && i <= j < |states| && OnItsWay(states[i], q)
    requires LeftAloneFrom(states, steps, i, j, q)
    ensures OnItsWay(states[j], q)
    ensures Need(states[j].pages[q].c) + Arrivals(steps[i..j], q) == Need(states[i].pages[q].c)
  {
    var ways := seq(|states|, k requires 0 <= k < |states| => Way(states[k], q));
    forall k | i <= k < j && ways[k].Some?
      ensures ways[k + 1].Some?
      ensures ways[k].value == ways[k + 1].value + if Brought(steps[k], q) then 1 else 0
    {
      RunNears(states, steps, k, q);
    }
    CountsDown(ways, steps, i, j, q);
  }

  // A page current with the server, its drain done: the server holds its text.
  lemma ThereNow(s: System, q: PageId)
    requires Inv(s) && OnItsWay(s, q) && s.pages[q].c.drain == Idle
    ensures var text := s.pages[q].c.text;
      && text.card.Some? && text.card.value.id in s.server.rows
      && s.server.rows[text.card.value.id].content == text.state
  {
    assert Sane(s, q);
    var p := s.pages[q];
    assert Real(s.server, p.c.text.card.value);
    if Answer(s, p).Some? {
      var card := Answer(s, p).value.card;
      assert EnvelopeOk(s.server, s.mail[p.waiting]);
      assert Real(s.server, card) && card.content == p.c.text.card.value.content;
    }
  }

  // End to end. A drain starts, or is under way, on a page whose form is valid and which the server is
  // current with; the page may have no component yet. Over any stretch of a run that leaves it alone,
  // every answer uses up one of at most two needed requests, and nothing else does; when none is left the
  // page says saved, and the server holds the text on screen, for as long as the page is left alone.
  lemma TextReachesServer(states: seq<System>, steps: seq<Step>, i: nat, j: nat, q: PageId)
    requires Run(states, steps) && i <= j < |states| && Holds(states[i], q)
    requires var c := states[i].pages[q].c; c.drain != Idle && !c.disposed && !c.fieldErrors
    requires LeftAloneFrom(states, steps, i, j, q)
    ensures q in states[j].pages
    ensures Need(states[j].pages[q].c) + Arrivals(steps[i..j], q) == Need(states[i].pages[q].c) <= 2
    ensures Need(states[j].pages[q].c) == 0 ==>
      var s, c := states[j], states[j].pages[q].c;
      && c.status == Saved && !c.dirty && c.text.card.Some? && c.text.card.value.id in s.server.rows
      && s.server.rows[c.text.card.value.id].content == c.text.state
  {
    RunInvariant(states, steps, i);
    assert Sane(states[i], q);
    StaysOnItsWayFrom(states, steps, i, j, q);
    RunInvariant(states, steps, j);
    if Need(states[j].pages[q].c) == 0 { ThereNow(states[j], q); }
  }

  // ---------------------------------------------------------------------------------------------
  // And something can always bring it there
  // ---------------------------------------------------------------------------------------------

  // The steps still to come: for each needed request its start, its handling and its answer.
  function StepsLeft(s: System, p: Page): nat {
    match p.c.drain
    case Idle => 0
    case Scheduled => 3 * Need(p.c)
    case Awaiting(_, _, _) => 3 * Need(p.c) - if Answer(s, p).Some? then 2 else 1
  }

  function NextStep(s: System, q: PageId, newId: ComponentId, merged: Document): Step
    requires q in s.pages
  {
    var p := s.pages[q];
    if p.c.drain == Scheduled then Act(q, StartDrain)
    else if Answer(s, p).None? then Handle(p.waiting, Ruling(newId, [false], false))
    else Act(q, Delivered(Answer(s, p).value, merged, true))
  }

  lemma NextCanBeDone(s: System, q: PageId, newId: ComponentId, merged: Document)
    requires Inv(s) && OnItsWay(s, q) && Need(s.pages[q].c) > 0 && newId !in s.server.rows
    ensures CanDo(s, NextStep(s, q, newId, merged)) && Considerate(s, NextStep(s, q, newId, merged))
  {
    assert Sane(s, q);
  }

  // If the page is creating, its key is still fresh.
  predicate FreshStart(s: System, p: Page) {
    Outstanding(p.c).Some? && p.waiting < |s.mail| ==>
      FreshKey(s.server, s.mail[p.waiting].actor, s.mail[p.waiting].request)
  }

  lemma NextLeavesAlone(s: System, q: PageId, newId: ComponentId, merged: Document)
    requires Inv(s) && OnItsWay(s, q) && Need(s.pages[q].c) > 0 && newId !in s.server.rows
    requires FreshStart(s, s.pages[q])
    ensures var step := NextStep(s, q, newId, merged);
      CanDo(s, step) && Considerate(s, step) && LeftAlone(s, step, q)
  {
    NextCanBeDone(s, q, newId, merged);
    assert Sane(s, q);
  }

  lemma NextAnswer(s: System, q: PageId, newId: ComponentId, merged: Document)
    requires Inv(s) && OnItsWay(s, q) && Need(s.pages[q].c) > 0 && newId !in s.server.rows
    requires s.pages[q].c.drain.Awaiting? && Answer(s, s.pages[q]).None?
    ensures var step := NextStep(s, q, newId, merged);
      CanDo(s, step) && Do(s, step).pages == s.pages && Answer(Do(s, step), s.pages[q]).Some?
  {
    NextCanBeDone(s, q, newId, merged);
    assert Sane(s, q);
    HandleFrame(s, s.pages[q].waiting, Ruling(newId, [false], false));
  }

  lemma StartNears(s: System, q: PageId)
    requires Inv(s) && CanDo(s, Act(q, StartDrain)) && OnItsWay(s, q) && LeftAlone(s, Act(q, StartDrain), q)
    ensures var t := ActStep(s, q, StartDrain);
      OnItsWay(t, q) && StepsLeft(t, t.pages[q]) < StepsLeft(s, s.pages[q])
  {
    StaysOnItsWay(s, Act(q, StartDrain), q);
    StartProgresses(s.pages[q].c);
  }

  lemma DeliveryNears(s: System, q: PageId, e: Event)
    requires Inv(s) && CanDo(s, Act(q, e)) && OnItsWay(s, q) && LeftAlone(s, Act(q, e), q) && e.Delivered?
    ensures var t := ActStep(s, q, e);
      OnItsWay(t, q) && StepsLeft(t, t.pages[q]) < StepsLeft(s, s.pages[q])
  {
    StaysOnItsWay(s, Act(q, e), q);
    assert StepsLeft(s, s.pages[q]) >= 3 * Need(s.pages[q].c) - 2;
    var t := ActStep(s, q, e);
    assert StepsLeft(t, t.pages[q]) <= 3 * Need(t.pages[q].c);
  }

  // A page on its way is never stuck: whatever the server would name a new component and merge into its
  // card, a next step is always possible, leaves the page alone, and leaves fewer of at most six to take.
  lemma NeverStuck(s: System, q: PageId, newId: ComponentId, merged: Document)
    requires Inv(s) && OnItsWay(s, q) && Need(s.pages[q].c) > 0 && newId !in s.server.rows
    requires FreshStart(s, s.pages[q])
    ensures StepsLeft(s, s.pages[q]) <= 6
    ensures var step := NextStep(s, q, newId, merged);
      && CanDo(s, step) && Considerate(s, step) && LeftAlone(s, step, q)
      && OnItsWay(Do(s, step), q) && StepsLeft(Do(s, step), Do(s, step).pages[q]) < StepsLeft(s, s.pages[q])
  {
    NextLeavesAlone(s, q, newId, merged);
    var step := NextStep(s, q, newId, merged);
    if step == Act(q, StartDrain) {
      StartNears(s, q);
    } else if step.Act? {
      DeliveryNears(s, q, step.event);
    } else {
      StaysOnItsWay(s, step, q);
      NextAnswer(s, q, newId, merged);
    }
  }
}
