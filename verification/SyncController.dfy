/**
 The synchronisation controller as the page holds it: one object whose methods update its fields.
 Where the controller awaits a promise, its method is split in two here; `Drain` runs the loop from
 its head to its next await. Every method is proved to follow the step of the same name that
 `Client.React` dispatches to.
 */
module SyncController {
  import opened Prelude
  import opened Client
  import ClientInvariants
  import Machine = Client
  import opened Recovery

  // What subscribers see. A command is pending exactly while its flight is.
  datatype View = View(state: Document, card: Option<Card>, status: Status, fieldErrors: bool, dirty: bool,
                       localStored: bool, recovery: Option<Draft>, transientBusy: bool)

  // What a write to local storage meets: the clock, the length of the JSON text, how the browser
  // lists the keys, and whether the text fits.
  datatype Moment = Moment(now: int, size: nat, order: seq<string>, fits: bool)

  // What handing a draft to the storage leaves, and whether it was stored.
  function Stash(items: Items, slot: string, at: Moment, text: Text): (Items, bool) {
    Written(items, at.order, slot, Item(at.size, Some(Record(1, at.now, DraftOf(text)))), at.fits)
  }

  // A draft stored by one controller is offered by the next one on its entry, exactly for seven days, its
  // key, token and form being in order.
  lemma StashIsOffered(items: Items, slot: string, at: Moment, text: Text, now: int, readable: Document -> bool)
    requires Lists(at.order, items) && at.size > 0 && Stash(items, slot, at, text).1
    ensures var found := Read(Stash(items, slot, at, text).0, slot, now, readable);
      && (found == Some(DraftOf(text)) <==>
            now - 604_800_000 <= at.now <= now + 60_000 && WellFormed(DraftOf(text), readable))
      && (found == None || found == Some(DraftOf(text)))
  {
    WrittenIsReadBack(items, at.order, slot, DraftOf(text), at.size, at.fits, at.now, now, readable);
  }

  class Controller {
    const options: Options
    const slot: string
    const storage: LocalStorage
    // Whether a stored value has the form's shape, and whether a form state has no field errors.
    const readable: Document -> bool
    const valid: Document -> bool

    var view: View
    var generation: nat
    var acknowledged: nat
    var active: Drain
    var timer: bool
    var creationKey: CreationKey
    var disposed: bool
    var baseToken: Option<nat>
    var commandFlight: Flight
    var loads: nat

    ghost function Snapshot(): Client
      reads this
    {
      Client(options, Text(view.state, generation, acknowledged, view.card, baseToken, creationKey),
             active, commandFlight, timer, loads, disposed, view.transientBusy,
             view.status, view.fieldErrors, view.dirty, view.localStored, view.recovery)
    }

    // Whether the offered draft has field errors.
    ghost predicate OfferErrs()
      reads this
    {
      view.recovery.Some? && !valid(view.recovery.value.state)
    }

    // Whether an offered draft would become the text, its card being known.
    ghost predicate CanTake()
      reads this
    {
      view.recovery.Some? && !disposed && commandFlight == NoFlight
    }

    constructor (options: Options, slot: string, storage: LocalStorage, readable: Document -> bool,
                 valid: Document -> bool, creationKey: CreationKey, now: int)
      ensures Snapshot() == Construct(options, creationKey, Read(storage.items, slot, now, readable))
      ensures this.options == options && this.slot == slot && this.storage == storage
      ensures this.readable == readable && this.valid == valid
    {
      this.options, this.slot, this.storage, this.readable, this.valid := options, slot, storage, readable, valid;
      view := View(options.initial, options.card, Saved, false, false, false, None, false);
      generation, acknowledged, active, timer, disposed, commandFlight, loads := 0, 0, Idle, false, false, NoFlight, 0;
      this.creationKey, baseToken := creationKey, TokenOf(options.card);
      new;
      var found := storage.ReadRecovery(slot, now, readable);
      view := view.(status := if found.Some? then Recovery else Saved, localStored := found.Some?, recovery := found);
    }

    method Persist(at: Moment) returns (stored: bool)
      requires Lists(at.order, storage.items)
      modifies this`view, storage
      ensures view == old(view).(localStored := stored)
      ensures (storage.items, stored) == Stash(old(storage.items), slot, at, old(Snapshot()).text)
    {
      var componentId := if view.card.Some? then Some(view.card.value.id) else None;
      var draft := Draft(baseToken, creationKey, componentId, view.state);
      stored := storage.WriteRecovery(slot, Item(at.size, Some(Record(1, at.now, draft))), at.order, at.fits);
      view := view.(localStored := stored);
    }

    method Edit(text: Document, at: Moment) returns (stored: bool)
      requires Lists(at.order, storage.items)
      modifies this, storage
      ensures Snapshot() == EditStep(old(Snapshot()), text, !valid(text), stored).c
      ensures if Closed(old(Snapshot())) then storage.items == old(storage.items)
              else (storage.items, stored) == Stash(old(storage.items), slot, at, Snapshot().text)
    {
      stored := false;
      if disposed || commandFlight != NoFlight || view.recovery.Some? {
        return;
      }
      generation := generation + 1;
      var errors := !valid(text);
      var blocked := view.status == Conflict;
      view := view.(state := text, dirty := true, fieldErrors := errors,
                    status := if blocked then Conflict else if errors then Invalid else Dirty);
      stored := Persist(at);
      timer := false;
      if !blocked && !errors {
        timer := true;
      }
    }

    method Flush() returns (result: FlushResult)
      modifies this
      ensures (Snapshot(), result) == TryFlush(old(Snapshot()))
    {
      if disposed {
        return Rejected;
      }
      timer := false;
      if active != Idle {
        return Joined;
      }
      if view.recovery.Some? || view.status == Conflict || view.fieldErrors {
        return Rejected;
      }
      if !view.dirty {
        return Resolved;
      }
      active := Scheduled;
      return Joined;
    }

    method FailCommand(conflict: bool)
      modifies this
      ensures Snapshot() == CommandFails(old(Snapshot()), conflict)
    {
      view := view.(status := if conflict then Conflict else Failed);
      commandFlight := NoFlight;
    }

    // The drain is over; a command awaiting its flush goes on.
    method Settle(settled: Settled) returns (send: Option<Request>)
      modifies this
      ensures (Snapshot(), send) == AfterFlush(old(Snapshot()).(drain := Idle), settled)
    {
      send := None;
      active := Idle;
      if commandFlight == Flushing {
        if settled.Thrown? || disposed || view.card.None? {
          FailCommand(settled.Thrown? && settled.conflict);
        } else {
          commandFlight := Running;
          send := Some(Command(view.card.value.id, view.card.value.token));
        }
      }
    }

    method Drain() returns (erase: bool, send: Option<Request>)
      modifies this, storage
      ensures var out := DrainHead(old(Snapshot()), None);
              Snapshot() == out.c && send == out.send && erase == out.erase
      ensures storage.items == if erase then old(storage.items) - {slot} else old(storage.items)
    {
      erase := false;
      if acknowledged == generation {
        storage.RemoveRecovery(slot);
        view := view.(status := Saved, dirty := false, localStored := false);
        erase := true;
        send := Settle(Fulfilled);
      } else if disposed {
        send := Settle(Fulfilled);
      } else if view.fieldErrors {
        view := view.(status := Invalid);
        send := Settle(Thrown(false));
      } else {
        view := view.(status := Syncing);
        active := Awaiting(generation, view.state, view.card.None?);
        send := Some(if view.card.None? then Create(creationKey, view.state)
                     else Save(view.card.value.id, view.card.value.token, view.state));
      }
    }

    // The drain's `catch`.
    method FailDrain(conflict: bool, at: Moment) returns (stored: bool, send: Option<Request>)
      requires Lists(at.order, storage.items)
      modifies this, storage
      ensures var out := DrainFails(old(Snapshot()), conflict, stored); Snapshot() == out.c && send == out.send
      ensures (storage.items, stored) == Stash(old(storage.items), slot, at, old(Snapshot()).text)
    {
      view := view.(status := if conflict then Conflict else Failed, dirty := true);
      stored := Persist(at);
      send := Settle(Thrown(conflict));
    }

    // A create or save answered with a card, up to where the loop's head comes next.
    method Accept(card: Card, merged: Document)
      requires active.Awaiting? && !(active.creating && card.token != 1)
      modifies this
      ensures Snapshot() == old(Snapshot()).(text := Acked(old(Snapshot()).text, old(active), card, merged))
    {
      view := view.(card := Some(card), state := if active.creating then merged else view.state);
      if !active.creating {
        acknowledged := active.sent;
      }
      baseToken := Some(card.token);
    }

    method PersistAndDrain(at: Moment) returns (stored: bool, erase: bool, send: Option<Request>)
      requires Lists(at.order, storage.items)
      modifies this, storage
      ensures var before := Machine.Persist(old(Snapshot()), stored);
              var out := DrainHead(before.c, before.put);
              Snapshot() == out.c && send == out.send && erase == out.erase
      ensures var (written, ok) := Stash(old(storage.items), slot, at, old(Snapshot()).text);
              stored == ok && storage.items == if erase then written - {slot} else written
    {
      stored := Persist(at);
      erase, send := Drain();
    }

    // A create answered with a card that has already been edited: shown, and then a conflict.
    method RefuseEdited(card: Card, merged: Document, at: Moment) returns (stored: bool, send: Option<Request>)
      requires active.Awaiting? && active.creating && Lists(at.order, storage.items)
      modifies this, storage
      ensures var shown := old(Snapshot()).(text := Machine.Shown(old(Snapshot()).text, old(active), card, merged));
              var out := DrainFails(shown, true, stored);
              && Snapshot() == out.c && send == out.send
              && (storage.items, stored) == Stash(old(storage.items), slot, at, shown.text)
    {
      view := view.(card := Some(card), state := merged);
      stored, send := FailDrain(true, at);
    }

    // A card has come: the draft written is the text it leaves.
    method Take(card: Card, merged: Document, at: Moment) returns (stored: bool, erase: bool, send: Option<Request>)
      requires active.Awaiting? && !disposed && Lists(at.order, storage.items)
      modifies this, storage
      ensures var out := DeliveredStep(old(Snapshot()), Got(card), merged, stored);
              Snapshot() == out.c && send == out.send && erase == out.erase
      ensures var text := ClientInvariants.Landed(old(Snapshot()).text, old(active), card, merged);
              var (written, ok) := Stash(old(storage.items), slot, at, text);
              stored == ok && storage.items == if erase then written - {slot} else written
    {
      if active.creating && card.token != 1 {
        erase := false;
        stored, send := RefuseEdited(card, merged, at);
      } else {
        Accept(card, merged);
        stored, erase, send := PersistAndDrain(at);
      }
    }

    // The awaited create or save settles.
    method Deliver(reply: Reply, merged: Document, at: Moment)
      returns (stored: bool, erase: bool, send: Option<Request>)
      requires active.Awaiting? && Lists(at.order, storage.items)
      modifies this, storage
      ensures var out := DeliveredStep(old(Snapshot()), reply, merged, stored);
              Snapshot() == out.c && send == out.send && erase == out.erase
      ensures var text := ClientInvariants.Landing(old(Snapshot()), reply, merged, stored).text;
              var (written, ok) := if old(disposed) then (old(storage.items), false)
                                   else Stash(old(storage.items), slot, at, text);
              stored == ok && storage.items == if erase then written - {slot} else written
    {
      stored, erase := false, false;
      if disposed {
        send := Settle(Fulfilled);
      } else if reply.Refused? {
        stored, send := FailDrain(reply.conflict, at);
      } else {
        stored, erase, send := Take(reply.card, merged, at);
      }
    }

    method CallCommand()
      modifies this
      ensures Snapshot() == React(old(Snapshot()), Event.CallCommand).c
    {
      if !disposed && !view.transientBusy && commandFlight == NoFlight {
        commandFlight := Called;
      }
    }

    method StartCommand() returns (send: Option<Request>)
      requires commandFlight == Called
      modifies this
      ensures var out := StartCommandStep(old(Snapshot())); Snapshot() == out.c && send == out.send
    {
      send := None;
      var result := Flush();
      match result
      case Rejected => FailCommand(false);
      case Joined => commandFlight := Flushing;
      case Resolved =>
        commandFlight := Flushing;
        send := Settle(Fulfilled);
    }

    method DeliverCommand(reply: Reply)
      requires commandFlight == Running
      modifies this
      ensures Snapshot() == CommandDeliveredStep(old(Snapshot()), reply)
    {
      if reply.Refused? {
        FailCommand(reply.conflict);
      } else {
        if !disposed {
          baseToken := Some(reply.card.token);
          view := view.(card := Some(reply.card), status := Saved);
        }
        commandFlight := NoFlight;
      }
    }

    method AdoptOffer()
      requires view.recovery.Some?
      modifies this
      ensures Snapshot() == Adopt(old(Snapshot())) && view.card == old(view).card
    {
      creationKey := view.recovery.value.creationKey;
      baseToken := view.recovery.value.token;
      view := view.(recovery := None);
    }

    method ShowStale()
      modifies this
      ensures Snapshot() == old(Snapshot()).(timer := false, status := Conflict)
    {
      timer := false;
      view := view.(status := Conflict);
    }

    method FinishRecover(at: Moment) returns (stored: bool)
      requires view.recovery.Some? && Lists(at.order, storage.items)
      modifies this, storage
      ensures Snapshot() == FinishRecovery(old(Snapshot()), old(OfferErrs()), stored).c
      ensures if old(CanTake()) then (storage.items, stored) == Stash(old(storage.items), slot, at, Snapshot().text)
              else storage.items == old(storage.items)
    {
      var found, shown := view.recovery.value, view.card;
      AdoptOffer();
      stored := Edit(found.state, at);
      if TokenOf(shown) != found.token {
        ShowStale();
      }
    }

    method Recover(at: Moment) returns (stored: bool)
      requires Lists(at.order, storage.items)
      modifies this, storage
      ensures Snapshot() == RecoverStep(old(Snapshot()), old(OfferErrs()), stored).c
      ensures if old(CanTake() && (view.card.Some? || view.recovery.value.componentId.None?))
              then (storage.items, stored) == Stash(old(storage.items), slot, at, Snapshot().text)
              else storage.items == old(storage.items)
    {
      stored := false;
      if view.recovery.None? {
        return;
      }
      if view.card.None? && view.recovery.value.componentId.Some? {
        loads := loads + 1;
        return;
      }
      stored := FinishRecover(at);
    }

    method ShowCard(card: Card)
      modifies this`view
      ensures Snapshot() == WithCard(old(Snapshot()), card) && view.recovery == old(view).recovery
    {
      view := view.(card := Some(card));
    }

    method CountLoad()
      requires loads > 0
      modifies this`loads
      ensures Snapshot() == old(Snapshot()).(loads := old(Snapshot()).loads - 1)
    {
      loads := loads - 1;
    }

    // The card asked for by `Recover` arrives, or its request fails.
    method DeliverLoad(loaded: Option<Card>, at: Moment) returns (stored: bool)
      requires loads > 0 && Lists(at.order, storage.items)
      modifies this, storage
      ensures Snapshot() == LoadedStep(old(Snapshot()), loaded, old(OfferErrs()), stored).c
      ensures if loaded.Some? && old(CanTake())
              then (storage.items, stored) == Stash(old(storage.items), slot, at, Snapshot().text)
              else storage.items == old(storage.items)
    {
      stored := false;
      CountLoad();
      if loaded.None? || disposed || view.recovery.None? {
        return;
      }
      ShowCard(loaded.value);
      stored := FinishRecover(at);
    }

    method Discard(replacement: Option<(Card, Document)>)
      modifies this, storage
      ensures var out := DiscardStep(old(Snapshot()), replacement);
              && Snapshot() == out.c
              && storage.items == if out.erase then old(storage.items) - {slot} else old(storage.items)
    {
      if active != Idle || commandFlight != NoFlight {
        return;
      }
      timer := false;
      storage.RemoveRecovery(slot);
      generation, acknowledged := 0, 0;
      var card := if replacement.Some? then Some(replacement.value.0) else options.card;
      baseToken := TokenOf(card);
      view := View(if replacement.Some? then replacement.value.1 else options.initial, card, Saved, false, false,
                   false, None, view.transientBusy);
    }

    method SetBusy(on: bool)
      modifies this
      ensures Snapshot() == React(old(Snapshot()), Event.SetBusy(on)).c
    {
      view := view.(transientBusy := on);
    }

    method Dispose()
      modifies this
      ensures Snapshot() == React(old(Snapshot()), Event.Dispose).c
    {
      disposed, timer := true, false;
    }
  }
}
