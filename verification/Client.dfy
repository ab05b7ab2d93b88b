/**
 The synchronisation controller of the component editor, as a state machine on values.

 One event is one entry into the controller: a call from the page, a timer, the deferred start of
 a drain or of a command, or the settling of an awaited promise. `React` says what the
 controller does until it returns or awaits again. The class in SyncController.dfy updates fields
 in place and is proved to follow `React`; Protocol.dfy runs many such controllers against one
 server.
 */
module Client {
  import opened Prelude

  // The serialised form state; the controller never looks inside it.
  type Document = string
  type CreationKey = string
  type ComponentId = nat

  // A server card: which component, at which edit token, with which document.
  datatype Card = Card(id: ComponentId, token: nat, content: Document)

  function TokenOf(card: Option<Card>): Option<nat> {
    if card.Some? then Some(card.value.token) else None
  }

  datatype Status = Saved | Dirty | Syncing | Invalid | Failed | Conflict | Recovery

  // What `persist` writes to local storage, without its time stamp.
  datatype Draft = Draft(
    token: Option<nat>,
    creationKey: CreationKey,
    componentId: Option<ComponentId>,
    state: Document)

  datatype Request =
    | Create(key: CreationKey, content: Document)
    | Save(id: ComponentId, token: nat, content: Document)
    | Command(id: ComponentId, token: nat)

  // How an awaited request ends: a card, or an error that is or is not `revision_conflict`.
  datatype Reply = Got(card: Card) | Refused(conflict: bool)

  // The single in-flight drain: not started, scheduled by `flush`, or awaiting one request.
  datatype Drain = Idle | Scheduled | Awaiting(sent: nat, content: Document, creating: bool)

  // The single command flight: called, awaiting its flush, or awaiting its operation.
  datatype Flight = NoFlight | Called | Flushing | Running

  // The text under edit: what it says, how often it was edited and acknowledged, the card it is
  // saved to, and the version it is based on.
  datatype Text = Text(
    state: Document,
    generation: nat,
    acknowledged: nat,
    card: Option<Card>,
    baseToken: Option<nat>,
    creationKey: CreationKey)

  // The form and card the page was opened with.
  datatype Options = Options(initial: Document, card: Option<Card>)

  // A command is pending exactly while it is in flight, so `commandPending` is not a field.
  datatype Client = Client(
    options: Options,
    text: Text,
    drain: Drain,
    flight: Flight,
    timer: bool,
    loads: nat,
    disposed: bool,
    busy: bool,
    status: Status,
    fieldErrors: bool,
    dirty: bool,
    localStored: bool,
    recovery: Option<Draft>)

  // What one entry leaves behind: the controller, a draft handed to local storage, whether the
  // local entry is then removed, and a request handed to the network.
  datatype Out = Out(c: Client, put: Option<Draft>, erase: bool, send: Option<Request>)

  // `stored` is whether the write to local storage succeeds, `errors` whether the validator
  // finds field errors, `merged` what `acceptMetadata` returns.
  datatype Event =
    | Edit(state: Document, errors: bool, stored: bool)
    | Flush
    | TimerFires
    | StartDrain
    | Delivered(reply: Reply, merged: Document, stored: bool)
    | CallCommand
    | StartCommand
    | CommandDelivered(reply: Reply)
    | Recover(errors: bool, stored: bool)
    | Loaded(loaded: Option<Card>, errors: bool, stored: bool)
    | Discard(replacement: Option<(Card, Document)>)
    | SetBusy(on: bool)
    | Dispose

  function Still(c: Client): Out {
    Out(c, None, false, None)
  }

  function Construct(options: Options, creationKey: CreationKey, found: Option<Draft>): Client {
    Client(options, Text(options.initial, 0, 0, options.card, TokenOf(options.card), creationKey),
           Idle, NoFlight, false, 0, false, false,
           if found.Some? then Recovery else Saved, false, false, found.Some?, found)
  }

  function DraftOf(text: Text): Draft {
    Draft(text.baseToken, text.creationKey, if text.card.Some? then Some(text.card.value.id) else None, text.state)
  }

  // Record the draft; `stored` is the write's outcome, shown to the user as `localStored`.
  function Persist(c: Client, stored: bool): Out {
    Out(c.(localStored := stored), if stored then Some(DraftOf(c.text)) else None, false, None)
  }

  predicate Closed(c: Client) {
    c.disposed || c.flight != NoFlight || c.recovery.Some?
  }

  function EditStep(c: Client, state: Document, errors: bool, stored: bool): Out {
    if Closed(c) then Still(c)
    else
      var blocked := c.status == Conflict;
      Persist(c.(text := c.text.(state := state, generation := c.text.generation + 1),
                 dirty := true, fieldErrors := errors, timer := !blocked && !errors,
                 status := if blocked then Conflict else if errors then Invalid else Dirty),
              stored)
  }

  datatype FlushResult = Rejected | Resolved | Joined

  function TryFlush(c: Client): (Client, FlushResult) {
    if c.disposed then (c, Rejected)
    else if c.drain != Idle then (c.(timer := false), Joined)
    else if c.recovery.Some? || c.status == Conflict || c.fieldErrors then (c.(timer := false), Rejected)
    else if !c.dirty then (c.(timer := false), Resolved)
    else (c.(timer := false, drain := Scheduled), Joined)
  }

  // The command's `catch` and `finally`.
  function CommandFails(c: Client, conflict: bool): Client {
    c.(status := if conflict then Conflict else Failed, flight := NoFlight)
  }

  datatype Settled = Fulfilled | Thrown(conflict: bool)

  // The awaited flush settles: a command waiting on it goes on in the same turn.
  function AfterFlush(c: Client, settled: Settled): (Client, Option<Request>) {
    if c.flight != Flushing then (c, None)
    else if settled.Thrown? then (CommandFails(c, settled.conflict), None)
    else if c.disposed || c.text.card.None? then (CommandFails(c, false), None)
    else (c.(flight := Running), Some(Command(c.text.card.value.id, c.text.card.value.token)))
  }

  function Finish(c: Client, settled: Settled, put: Option<Draft>, erase: bool): Out {
    var (after, send) := AfterFlush(c.(drain := Idle), settled);
    Out(after, put, erase, send)
  }

  function SaveRequest(text: Text): Request {
    if text.card.None? then Create(text.creationKey, text.state)
    else Save(text.card.value.id, text.card.value.token, text.state)
  }

  // The head of the drain's while loop, up to its next await or its end.
  function DrainHead(c: Client, put: Option<Draft>): Out {
    if c.text.acknowledged == c.text.generation then
      Finish(c.(status := Saved, dirty := false, localStored := false), Fulfilled, put, true)
    else if c.disposed then Finish(c, Fulfilled, put, false)
    else if c.fieldErrors then Finish(c.(status := Invalid), Thrown(false), put, false)
    else Out(c.(status := Syncing, drain := Awaiting(c.text.generation, c.text.state, c.text.card.None?)),
             put, false, Some(SaveRequest(c.text)))
  }

  // The drain's `catch`.
  function DrainFails(c: Client, conflict: bool, stored: bool): Out {
    var out := Persist(c.(status := if conflict then Conflict else Failed, dirty := true), stored);
    Finish(out.c, Thrown(conflict), out.put, false)
  }

  // The card of a settled request is published; a create also merges server metadata.
  function Shown(text: Text, drain: Drain, card: Card, merged: Document): Text
    requires drain.Awaiting?
  {
    text.(card := Some(card), state := if drain.creating then merged else text.state)
  }

  // A save acknowledges what it sent; a create acknowledges nothing, so the text is sent again.
  function Acked(text: Text, drain: Drain, card: Card, merged: Document): Text
    requires drain.Awaiting?
  {
    Shown(text, drain, card, merged).(acknowledged := if drain.creating then text.acknowledged else drain.sent,
                                      baseToken := Some(card.token))
  }

  function DeliveredStep(c: Client, reply: Reply, merged: Document, stored: bool): Out
    requires c.drain.Awaiting?
  {
    if c.disposed then Finish(c, Fulfilled, None, false)
    else if reply.Refused? then DrainFails(c, reply.conflict, stored)
    else if c.drain.creating && reply.card.token != 1 then
      DrainFails(c.(text := Shown(c.text, c.drain, reply.card, merged)), true, stored)
    else
      var out := Persist(c.(text := Acked(c.text, c.drain, reply.card, merged)), stored);
      DrainHead(out.c, out.put)
  }

  function StartCommandStep(c: Client): Out {
    var (flushed, result) := TryFlush(c);
    match result
    case Rejected => Still(CommandFails(flushed, false))
    case Joined => Still(flushed.(flight := Flushing))
    case Resolved =>
      var (after, send) := AfterFlush(flushed.(flight := Flushing), Fulfilled);
      Out(after, None, false, send)
  }

  function CommandDeliveredStep(c: Client, reply: Reply): Client {
    if reply.Refused? then CommandFails(c, reply.conflict)
    else if c.disposed then c.(flight := NoFlight)
    else c.(text := c.text.(baseToken := Some(reply.card.token), card := Some(reply.card)),
            status := Saved, flight := NoFlight)
  }

  // The offered draft's base and creation key replace the page's own.
  function Adopt(c: Client): Client
    requires c.recovery.Some?
  {
    c.(text := c.text.(creationKey := c.recovery.value.creationKey, baseToken := c.recovery.value.token),
       recovery := None)
  }

  function FinishRecovery(c: Client, errors: bool, stored: bool): Out
    requires c.recovery.Some?
  {
    var out := EditStep(Adopt(c), c.recovery.value.state, errors, stored);
    if TokenOf(c.text.card) == c.recovery.value.token then out
    else out.(c := out.c.(timer := false, status := Conflict))
  }

  function RecoverStep(c: Client, errors: bool, stored: bool): Out {
    if c.recovery.None? then Still(c)
    else if c.text.card.None? && c.recovery.value.componentId.Some? then Still(c.(loads := c.loads + 1))
    else FinishRecovery(c, errors, stored)
  }

  function WithCard(c: Client, card: Card): Client {
    c.(text := c.text.(card := Some(card)))
  }

  function LoadedStep(c: Client, loaded: Option<Card>, errors: bool, stored: bool): Out
    requires c.loads > 0
  {
    var later := c.(loads := c.loads - 1);
    if loaded.None? || c.disposed || c.recovery.None? then Still(later)
    else FinishRecovery(WithCard(later, loaded.value), errors, stored)
  }

  function DiscardStep(c: Client, replacement: Option<(Card, Document)>): Out {
    if c.drain != Idle || c.flight != NoFlight then Still(c)
    else
      var card := if replacement.Some? then Some(replacement.value.0) else c.options.card;
      var state := if replacement.Some? then replacement.value.1 else c.options.initial;
      Out(c.(text := Text(state, 0, 0, card, TokenOf(card), c.text.creationKey), timer := false,
             status := Saved, dirty := false, recovery := None, fieldErrors := false, localStored := false),
          None, true, None)
  }

  // Which events can happen: timers and settlements need something to settle.
  predicate CanReact(c: Client, e: Event) {
    match e
    case TimerFires => c.timer
    case StartDrain => c.drain == Scheduled
    case Delivered(_, _, _) => c.drain.Awaiting?
    case StartCommand => c.flight == Called
    case CommandDelivered(_) => c.flight == Running
    case Loaded(_, _, _) => c.loads > 0
    case _ => true
  }

  function React(c: Client, e: Event): Out
    requires CanReact(c, e)
  {
    match e
    case Edit(state, errors, stored) => EditStep(c, state, errors, stored)
    case Flush => Still(TryFlush(c).0)
    case TimerFires => Still(TryFlush(c).0)
    case StartDrain => DrainHead(c, None)
    case Delivered(reply, merged, stored) => DeliveredStep(c, reply, merged, stored)
    case CallCommand =>
      if c.disposed || c.busy || c.flight != NoFlight then Still(c)
      else Still(c.(flight := Called))
    case StartCommand => StartCommandStep(c)
    case CommandDelivered(reply) => Still(CommandDeliveredStep(c, reply))
    case Recover(errors, stored) => RecoverStep(c, errors, stored)
    case Loaded(loaded, errors, stored) => LoadedStep(c, loaded, errors, stored)
    case Discard(replacement) => DiscardStep(c, replacement)
    case SetBusy(on) => Still(c.(busy := on))
    case Dispose => Still(c.(disposed := true, timer := false))
  }
}
