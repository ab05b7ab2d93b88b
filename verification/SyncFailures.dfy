/** Runs in which a guarantee of the editor ends: one overwrites a version, one loses a draft. */
module SyncFailures {
  import opened Prelude
  import opened Client
  import opened EditTokens
  import opened Server
  import opened Protocol
  import opened ProtocolInvariant
  import opened SyncTheorems

  lemma Extend(states: seq<System>, steps: seq<Step>, step: Step)
    requires AnyRun(states, steps) && CanDo(states[|steps|], step)
    ensures AnyRun(states + [Do(states[|steps|], step)], steps + [step])
  {
  }

  lemma ExtendRun(states: seq<System>, steps: seq<Step>, step: Step)
    requires Run(states, steps) && CanDo(states[|steps|], step) && Considerate(states[|steps|], step)
    ensures Run(states + [Do(states[|steps|], step)], steps + [step])
  {
    Extend(states, steps, step);
    var more, taken := states + [Do(states[|steps|], step)], steps + [step];
    forall i | 0 <= i < |taken| ensures Considerate(more[i], taken[i]) {
      if i < |steps| { assert Considerate(states[i], steps[i]); }
    }
  }

  // A run in which at most the start of the first page's command is inconsiderate.
  ghost predicate ButForTheCommand(states: seq<System>, steps: seq<Step>) {
    AnyRun(states, steps) &&
    forall i | 0 <= i < |steps| :: Considerate(states[i], steps[i]) || steps[i] == Act(0, StartCommand)
  }

  lemma ExtendButFor(states: seq<System>, steps: seq<Step>, step: Step)
    requires ButForTheCommand(states, steps) && CanDo(states[|steps|], step)
    requires Considerate(states[|steps|], step) || step == Act(0, StartCommand)
    ensures ButForTheCommand(states + [Do(states[|steps|], step)], steps + [step])
  {
    Extend(states, steps, step);
    var more, taken := states + [Do(states[|steps|], step)], steps + [step];
    forall i | 0 <= i < |taken| ensures Considerate(more[i], taken[i]) || taken[i] == Act(0, StartCommand) {
      if i < |steps| { assert Considerate(states[i], steps[i]) || steps[i] == Act(0, StartCommand); }
    }
  }

  // One event of the first page.
  lemma ExtendAct(states: seq<System>, steps: seq<Step>, e: Event) returns (more: seq<System>, taken: seq<Step>)
    requires ButForTheCommand(states, steps) && CanDo(states[|steps|], Act(0, e))
    requires Considerate(states[|steps|], Act(0, e)) || e == StartCommand
    ensures ButForTheCommand(more, taken) && taken == steps + [Act(0, e)]
    ensures more == states + [ActStep(states[|steps|], 0, e)]
  {
    ExtendButFor(states, steps, Act(0, e));
    more, taken := states + [ActStep(states[|steps|], 0, e)], steps + [Act(0, e)];
  }

  // ---------------------------------------------------------------------------------------------
  // A command in a stale conflict
  // ---------------------------------------------------------------------------------------------

  const NEWER := Card(0, 2, "theirs")

  // A component at its second version, and a draft of its first left in local storage.
  function StaleStart(): System {
    System(
      Catalog(map[0 := Row("theirs", 2, 2, None)], map[], map[(0, 1) := "first", (0, 2) := "theirs"]),
      map[], 0, map["entry" := Stored(Draft(Some(1), "key", Some(0), "mine"), Some(1))], [], map[], [])
  }

  // The page once it has taken the draft, in the states it then passes through.
  function Mine(status: Status, drain: Drain, flight: Flight): Client {
    Client(Options("theirs", Some(NEWER)), Text("mine", 1, 0, Some(NEWER), Some(1), "key"), drain, flight,
           false, 0, false, false, status, false, true, true, None)
  }

  ghost predicate At(s: System, c: Client) {
    && s.server == StaleStart().server && s.log == [] && 0 in s.pages
    && s.pages[0].c == c && s.pages[0].origin == Some(1)
  }

  const REOPEN := Step.Open(7, "entry", "theirs", Some(NEWER), "other", true)

  lemma StaleStarts()
    ensures ButForTheCommand([StaleStart()], []) && CanDo(StaleStart(), REOPEN)
  {
  }

  lemma Offered() returns (states: seq<System>, steps: seq<Step>)
    ensures ButForTheCommand(states, steps) && states[|steps|].mail == []
    ensures var s := states[|steps|];
      && s.server == StaleStart().server && s.log == [] && 0 in s.pages && s.pages[0].held == Some(1)
      && s.pages[0].c
         == Construct(Options("theirs", Some(NEWER)), "other", Some(Draft(Some(1), "key", Some(0), "mine")))
  {
    StaleStarts();
    ExtendButFor([StaleStart()], [], REOPEN);
    states, steps := [StaleStart(), Do(StaleStart(), REOPEN)], [REOPEN];
  }

  lemma Taken() returns (states: seq<System>, steps: seq<Step>)
    ensures ButForTheCommand(states, steps)
    ensures At(states[|steps|], Mine(Conflict, Idle, NoFlight)) && states[|steps|].mail == []
  {
    states, steps := Offered();
    states, steps := ExtendAct(states, steps, Recover(false, true));
  }

  // What the page does next, before anything is sent.
  lemma MineMoves(e: Event, status: Status, drain: Drain, flight: Flight, s: System)
    requires At(s, Mine(status, drain, flight)) && CanReact(Mine(status, drain, flight), e)
    requires e == CallCommand || e == StartCommand || e == Flush
    requires status == (if e == Flush then Failed else Conflict) && drain == Idle
    requires flight == if e == StartCommand then Called else NoFlight
    ensures CanDo(s, Act(0, e)) && ActStep(s, 0, e).mail == s.mail
    ensures At(ActStep(s, 0, e), if e == CallCommand then Mine(Conflict, Idle, Called)
                                 else if e == StartCommand then Mine(Failed, Idle, NoFlight)
                                 else Mine(Failed, Scheduled, NoFlight))
  {
  }

  lemma Commanded() returns (states: seq<System>, steps: seq<Step>)
    ensures ButForTheCommand(states, steps)
    ensures At(states[|steps|], Mine(Failed, Scheduled, NoFlight)) && states[|steps|].mail == []
  {
    states, steps := Taken();
    MineMoves(CallCommand, Conflict, Idle, NoFlight, states[|steps|]);
    states, steps := ExtendAct(states, steps, CallCommand);
    MineMoves(StartCommand, Conflict, Idle, Called, states[|steps|]);
    states, steps := ExtendAct(states, steps, StartCommand);
    MineMoves(Flush, Failed, Idle, NoFlight, states[|steps|]);
    states, steps := ExtendAct(states, steps, Flush);
  }

  lemma Sends() returns (states: seq<System>, steps: seq<Step>)
    ensures ButForTheCommand(states, steps) && At(states[|steps|], Mine(Syncing, Awaiting(1, "mine", false), NoFlight))
    ensures states[|steps|].mail == [Envelope(0, states[|steps|].pages[0].actor, Save(0, 2, "mine"), Some(1), None)]
  {
    states, steps := Commanded();
    states, steps := ExtendAct(states, steps, StartDrain);
  }

  // Recover a stale draft, start a command, let the next flush save: the server accepts, over version
  // two, a text that descends from version one. Only the command's start is inconsiderate.
  lemma CommandOverwritesVersion() returns (states: seq<System>, steps: seq<Step>)
    ensures ButForTheCommand(states, steps)
    ensures exists e <- states[|steps|].log :: e.origin != Some(e.before) && e.content == "mine"
  {
    states, steps := Sends();
    var s, ruling := states[|steps|], Ruling(9, [false], false);
    ExtendButFor(states, steps, Handle(0, ruling));
    var accepted := HandleStep(s, 0, ruling);
    assert accepted.log[0].before == 2 && accepted.log[0].origin == Some(1);
    states, steps := states + [accepted], steps + [Handle(0, ruling)];
  }

  // ---------------------------------------------------------------------------------------------
  // Two pages on one entry
  // ---------------------------------------------------------------------------------------------

  const FIRST := Card(0, 1, "a")

  function SharedStart(): System {
    System(Catalog(map[0 := Row("a", 1, 1, None)], map[], map[(0, 1) := "a"]), map[], 0, map[], [], map[], [])
  }

  function OpenShared(key: CreationKey): Step {
    Step.Open(7, "entry", "a", Some(FIRST), key, true)
  }

  // A page on the component, after one edit.
  function Typed(key: CreationKey, text: Document, status: Status, drain: Drain, timer: bool): Client {
    Client(Options("a", Some(FIRST)), Text(text, 1, 0, Some(FIRST), Some(1), key), drain, NoFlight, timer, 0,
           false, false, status, false, true, true, None)
  }

  ghost predicate Both(s: System, first: Client, second: Client) {
    && s.server == SharedStart().server && s.used == 2 && s.pages.Keys == {0, 1}
    && s.pages[0].c == first && s.pages[1].c == second && s.pages[0].slot == s.pages[1].slot == "entry"
    && s.pages[0].origin == Some(1)
  }

  lemma TwoOpen() returns (states: seq<System>, steps: seq<Step>)
    ensures Run(states, steps) && states[|steps|].mail == []
    ensures var options := Options("a", Some(FIRST));
            Both(states[|steps|], Construct(options, "k", None), Construct(options, "l", None))
  {
    states, steps := [SharedStart()], [];
    assert Start(SharedStart());
    ExtendRun(states, steps, OpenShared("k"));
    var one := Do(states[0], OpenShared("k"));
    states, steps := states + [one], steps + [OpenShared("k")];
    ExtendRun(states, steps, OpenShared("l"));
    states, steps := states + [Do(one, OpenShared("l"))], steps + [OpenShared("l")];
  }

  lemma ActRun(states: seq<System>, steps: seq<Step>, q: PageId, e: Event) returns (more: seq<System>, taken: seq<Step>)
    requires Run(states, steps) && CanDo(states[|steps|], Act(q, e)) && Considerate(states[|steps|], Act(q, e))
    ensures Run(more, taken) && taken == steps + [Act(q, e)]
    ensures more == states + [ActStep(states[|steps|], q, e)]
  {
    ExtendRun(states, steps, Act(q, e));
    more, taken := states + [ActStep(states[|steps|], q, e)], steps + [Act(q, e)];
  }

  lemma OneTyped() returns (states: seq<System>, steps: seq<Step>)
    ensures Run(states, steps) && states[|steps|].mail == []
    ensures Both(states[|steps|], Typed("k", "x", Dirty, Idle, true), Construct(Options("a", Some(FIRST)), "l", None))
  {
    states, steps := TwoOpen();
    states, steps := ActRun(states, steps, 0, Edit("x", false, true));
  }

  lemma TwoTyped() returns (states: seq<System>, steps: seq<Step>)
    ensures Run(states, steps) && states[|steps|].mail == []
    ensures Both(states[|steps|], Typed("k", "x", Dirty, Idle, true), Typed("l", "y", Dirty, Idle, true))
  {
    states, steps := OneTyped();
    states, steps := ActRun(states, steps, 1, Edit("y", false, true));
  }

  lemma FirstSends() returns (states: seq<System>, steps: seq<Step>)
    ensures Run(states, steps)
    ensures Both(states[|steps|], Typed("k", "x", Syncing, Awaiting(1, "x", false), false),
                 Typed("l", "y", Dirty, Idle, true))
    ensures states[|steps|].pages[0].waiting == 0
    ensures states[|steps|].mail == [Envelope(0, states[|steps|].pages[0].actor, Save(0, 1, "x"), Some(1), None)]
  {
    states, steps := TwoTyped();
    states, steps := ActRun(states, steps, 0, Flush);
    states, steps := ActRun(states, steps, 0, StartDrain);
  }

  lemma FirstHandled() returns (states: seq<System>, steps: seq<Step>)
    ensures Run(states, steps)
    ensures var s := states[|steps|];
      && (0, 1) in s.server.history && 0 in s.server.rows && Real(s.server, FIRST) && s.used == 2
      && 0 in s.pages && s.pages[0].c == Typed("k", "x", Syncing, Awaiting(1, "x", false), false)
      && 1 in s.pages && s.pages[1].c == Typed("l", "y", Dirty, Idle, true)
      && s.pages[0].slot == s.pages[1].slot == "entry" && s.pages[0].waiting == 0
      && |s.mail| == 1 && s.mail[0].outcome == Some(Got(Card(0, 2, "x")))
  {
    states, steps := FirstSends();
    var s, ruling := states[|steps|], Ruling(9, [false], false);
    ExtendRun(states, steps, Handle(0, ruling));
    states, steps := states + [HandleStep(s, 0, ruling)], steps + [Handle(0, ruling)];
  }

  // The first page's save is answered: it clears the entry both share.
  lemma FirstSaves() returns (states: seq<System>, steps: seq<Step>)
    ensures Run(states, steps) && (0, 1) in states[|steps|].server.history && 0 in states[|steps|].server.rows
    ensures Real(states[|steps|].server, FIRST)
    ensures var s := states[|steps|];
      && 1 in s.pages && s.pages[1].c == Typed("l", "y", Dirty, Idle, true) && s.pages[1].slot == "entry"
      && "entry" !in s.disk && s.used == 2
  {
    states, steps := FirstHandled();
    states, steps := ActRun(states, steps, 0, Delivered(Got(Card(0, 2, "x")), "x", true));
  }

  // The second page dies reporting "y" as stored, and the next page on the entry is offered nothing.
  lemma SharedDraftIsLost() returns (states: seq<System>, steps: seq<Step>, i: nat)
    ensures Run(states, steps) && i + 2 == |steps| && steps[i] == Crash(1) && steps[i + 1] == OpenShared("m")
    ensures StoredWork(states[i], 1) && states[i].pages[1].c.text.state == "y" && states[i].pages[1].slot == "entry"
    ensures states[i + 1].used in states[i + 2].pages && states[i + 2].pages[states[i + 1].used].c.recovery.None?
  {
    states, steps := FirstSaves();
    i := |steps|;
    var s := states[i];
    ExtendRun(states, steps, Crash(1));
    var dead := Do(s, Crash(1));
    states, steps := states + [dead], steps + [Crash(1)];
    ExtendRun(states, steps, OpenShared("m"));
    states, steps := states + [Do(dead, OpenShared("m"))], steps + [OpenShared("m")];
  }
}
