/**
 Idempotent creation, one statement at a time: any number of transactions take an advisory lock on
 part of their key, look the key up, and answer with its card or write a component and the key's row.
 Nothing a transaction writes is seen before it commits. `Server.ServeCreate` is what they amount to.
 */
module Creations {
  import opened Prelude
  import opened Client
  import opened EditTokens
  import opened Server

  datatype Phase = Waiting | Locked | Found(creation: Creation) | Missing | Written(component: ComponentId)

  datatype Creating = Creating(actor: nat, key: CreationKey, content: Document, phase: Phase)

  // The committed tables, the open transactions, and the holder of each advisory lock.
  datatype Tables = Tables(server: Catalog, working: map<nat, Creating>, locks: map<int, nat>)

  // `Elsewhere` is any commit that has nothing to do with creation keys.
  datatype Step =
    | Begin(t: nat, actor: nat, key: CreationKey, content: Document)
    | Lock(t: nat)
    | Look(t: nat)
    | ReadCard(t: nat)
    | Write(t: nat, id: ComponentId)
    | Commit(t: nat)
    | Abort(t: nat)
    | Elsewhere(later: Catalog)

  // The lock is on the first eight bytes of the key, so different keys may share one.
  type Prefix = CreationKey -> int

  ghost predicate Unused(s: Tables, id: ComponentId) {
    id !in s.server.rows && forall t | t in s.working :: s.working[t].phase != Written(id)
  }

  ghost predicate CanDo(prefix: Prefix, s: Tables, step: Step) {
    match step
    case Begin(t, _, _, _) => t !in s.working
    case Lock(t) => t in s.working && s.working[t].phase == Waiting && prefix(s.working[t].key) !in s.locks
    case Look(t) => t in s.working && s.working[t].phase == Locked
    case ReadCard(t) => t in s.working && s.working[t].phase.Found?
    case Write(t, id) => t in s.working && s.working[t].phase == Missing && Unused(s, id)
    case Commit(t) => t in s.working && s.working[t].phase.Written?
    case Abort(t) => t in s.working
    case Elsewhere(later) =>
      && ServerOk(later) && Grows(s.server, later) && later.creations == s.server.creations
      && (forall t | t in s.working && s.working[t].phase.Written? :: s.working[t].phase.component !in later.rows)
  }

  function Moved(s: Tables, t: nat, phase: Phase): Tables
    requires t in s.working
  {
    s.(working := s.working[t := s.working[t].(phase := phase)])
  }

  // The transaction ends, and with it its lock.
  function Ended(prefix: Prefix, s: Tables, t: nat): Tables
    requires t in s.working
  {
    var p := prefix(s.working[t].key);
    s.(working := s.working - {t}, locks := if p in s.locks && s.locks[p] == t then s.locks - {p} else s.locks)
  }

  // The committed tables after a commit; the primary key turns a second row for a key away.
  function Committed(s: Tables, t: nat): (Catalog, Reply)
    requires t in s.working && s.working[t].phase.Written?
  {
    var c := s.working[t];
    if c.key in s.server.creations then (s.server, Refused(false))
    else (Born(s.server, c.actor, c.key, c.content, c.phase.component),
          Got(CardOf(c.phase.component, Row(c.content, 1, 1, Some(c.key)))))
  }

  // The owner gets the component's present card.
  function Answer(s: Tables, t: nat): Reply
    requires t in s.working && s.working[t].phase.Found?
  {
    var found := s.working[t].phase.creation;
    if found.owner != s.working[t].actor || found.component !in s.server.rows then Refused(false)
    else Got(CardOf(found.component, s.server.rows[found.component]))
  }

  ghost function Do(prefix: Prefix, s: Tables, step: Step): Tables
    requires CanDo(prefix, s, step)
  {
    match step
    case Begin(t, actor, key, content) => s.(working := s.working[t := Creating(actor, key, content, Waiting)])
    case Lock(t) => Moved(s, t, Locked).(locks := s.locks[prefix(s.working[t].key) := t])
    case Look(t) =>
      var key := s.working[t].key;
      Moved(s, t, if key in s.server.creations then Found(s.server.creations[key]) else Missing)
    case ReadCard(t) => Ended(prefix, s, t)
    case Write(t, id) => Moved(s, t, Written(id))
    case Commit(t) => Ended(prefix, s, t).(server := Committed(s, t).0)
    case Abort(t) => Ended(prefix, s, t)
    case Elsewhere(later) => s.(server := later)
  }

  // ---------------------------------------------------------------------------------------------
  // The invariant
  // ---------------------------------------------------------------------------------------------

  // Past its first statement a transaction holds its lock, and what it saw is still so.
  ghost predicate Holds(prefix: Prefix, s: Tables, t: nat)
    requires t in s.working
  {
    var c := s.working[t];
    c.phase != Waiting ==>
      && prefix(c.key) in s.locks && s.locks[prefix(c.key)] == t
      && match c.phase
         case Found(creation) => c.key in s.server.creations && s.server.creations[c.key] == creation
         case Missing => c.key !in s.server.creations
         case Written(id) => c.key !in s.server.creations && id !in s.server.rows
         case _ => true
  }

  ghost predicate OwnIds(s: Tables) {
    forall t, u | t in s.working && u in s.working && t != u && s.working[t].phase.Written? ::
      s.working[u].phase != s.working[t].phase
  }

  // Every lock is some open transaction's.
  ghost predicate Held(prefix: Prefix, s: Tables) {
    forall p | p in s.locks ::
      && s.locks[p] in s.working && prefix(s.working[s.locks[p]].key) == p
      && s.working[s.locks[p]].phase != Waiting
  }

  ghost predicate Inv(prefix: Prefix, s: Tables) {
    && ServerOk(s.server) && OwnIds(s) && Held(prefix, s)
    && forall t | t in s.working :: Holds(prefix, s, t)
  }

  // Two transactions on one key cannot both be past the lock.
  lemma OneAtATime(prefix: Prefix, s: Tables, t: nat, u: nat)
    requires Inv(prefix, s) && t in s.working && u in s.working && s.working[t].key == s.working[u].key
    requires s.working[t].phase != Waiting && s.working[u].phase != Waiting
    ensures t == u
  {
    assert Holds(prefix, s, t) && Holds(prefix, s, u);
  }

  // The primary key never turns a creation away: under the lock the key is still free at the commit.
  lemma KeyStillFree(prefix: Prefix, s: Tables, t: nat)
    requires Inv(prefix, s) && CanDo(prefix, s, Commit(t))
    ensures Committed(s, t).1.Got? && s.working[t].key !in s.server.creations
  {
    assert Holds(prefix, s, t);
  }

  lemma OthersHold(prefix: Prefix, s: Tables, t: nat, u: nat)
    requires Inv(prefix, s) && CanDo(prefix, s, Commit(t)) && u in s.working && u != t
    ensures Holds(prefix, Do(prefix, s, Commit(t)), u)
  {
    KeyStillFree(prefix, s, t);
    assert Holds(prefix, s, t) && Holds(prefix, s, u);
    if s.working[u].phase != Waiting && s.working[u].key == s.working[t].key { OneAtATime(prefix, s, t, u); }
  }

  lemma CommitKeeps(prefix: Prefix, s: Tables, t: nat)
    requires Inv(prefix, s) && CanDo(prefix, s, Commit(t))
    ensures Inv(prefix, Do(prefix, s, Commit(t)))
  {
    var c, r := s.working[t], Do(prefix, s, Commit(t));
    KeyStillFree(prefix, s, t);
    assert Holds(prefix, s, t);
    BornKeeps(s.server, c.actor, c.key, c.content, c.phase.component);
    EndKeeps(prefix, s, t);
    forall u | u in r.working ensures Holds(prefix, r, u) { OthersHold(prefix, s, t, u); }
  }

  lemma EndKeeps(prefix: Prefix, s: Tables, t: nat)
    requires Inv(prefix, s) && t in s.working
    ensures Inv(prefix, Ended(prefix, s, t))
  {
    var r := Ended(prefix, s, t);
    forall u | u in r.working ensures Holds(prefix, r, u) {
      assert Holds(prefix, s, u);
    }
  }

  lemma MoveKeeps(prefix: Prefix, s: Tables, step: Step)
    requires Inv(prefix, s) && CanDo(prefix, s, step) && (step.Begin? || step.Lock? || step.Look? || step.Write?)
    ensures Inv(prefix, Do(prefix, s, step))
  {
    var r := Do(prefix, s, step);
    forall u | u in r.working ensures Holds(prefix, r, u) {
      if u in s.working { assert Holds(prefix, s, u); }
    }
  }

  lemma ElsewhereKeeps(prefix: Prefix, s: Tables, later: Catalog)
    requires Inv(prefix, s) && CanDo(prefix, s, Elsewhere(later))
    ensures Inv(prefix, s.(server := later))
  {
    var r := s.(server := later);
    forall u | u in r.working ensures Holds(prefix, r, u) {
      assert Holds(prefix, s, u);
    }
  }

  lemma StepKeeps(prefix: Prefix, s: Tables, step: Step)
    requires Inv(prefix, s) && CanDo(prefix, s, step)
    ensures Inv(prefix, Do(prefix, s, step))
  {
    match step
    case ReadCard(t) => EndKeeps(prefix, s, t);
    case Commit(t) => CommitKeeps(prefix, s, t);
    case Abort(t) => EndKeeps(prefix, s, t);
    case Elsewhere(later) => ElsewhereKeeps(prefix, s, later);
    case _ => MoveKeeps(prefix, s, step);
  }

  // ---------------------------------------------------------------------------------------------
  // What the transactions amount to
  // ---------------------------------------------------------------------------------------------

  ghost predicate Run(prefix: Prefix, states: seq<Tables>, steps: seq<Step>) {
    && |states| == |steps| + 1
    && ServerOk(states[0].server) && states[0].working == map[] && states[0].locks == map[]
    && forall i | 0 <= i < |steps| ::
         CanDo(prefix, states[i], steps[i]) && states[i + 1] == Do(prefix, states[i], steps[i])
  }

  lemma {:induction false} RunInvariant(prefix: Prefix, states: seq<Tables>, steps: seq<Step>, i: nat)
    requires Run(prefix, states, steps) && i < |states|
    ensures Inv(prefix, states[i])
  {
    if i > 0 {
      RunInvariant(prefix, states, steps, i - 1);
      StepKeeps(prefix, states[i - 1], steps[i - 1]);
    }
  }

  // The answer a step gives its transaction, and the ruling under which the atomic creation gives it.
  function Given(s: Tables, step: Step): Option<(Ruling, Reply)>
    requires step.ReadCard? ==> step.t in s.working && s.working[step.t].phase.Found?
    requires step.Commit? ==> step.t in s.working && s.working[step.t].phase.Written?
  {
    match step
    case ReadCard(t) => Some((Ruling(0, [], false), Answer(s, t)))
    case Commit(t) => Some((Ruling(s.working[t].phase.component, [], false), Committed(s, t).1))
    case Abort(_) => Some((Ruling(0, [], true), Refused(false)))
    case _ => None
  }

  // However the transactions interleave, each answers and changes the committed tables exactly as one
  // atomic creation at the moment of its answer, and nothing before that changes them.
  lemma CreationsAreAtomic(prefix: Prefix, states: seq<Tables>, steps: seq<Step>, i: nat)
    requires Run(prefix, states, steps) && i < |steps| && !steps[i].Elsewhere?
    ensures var s, step := states[i], steps[i];
            match Given(s, step)
            case None => states[i + 1].server == s.server
            case Some((ruling, reply)) =>
              var c := s.working[step.t];
              && (states[i + 1].server, reply) == ServeCreate(s.server, c.actor, c.key, c.content, ruling)
              && (ruling.deny || c.key in s.server.creations || ruling.newId !in s.server.rows)
  {
    RunInvariant(prefix, states, steps, i);
    var s, step := states[i], steps[i];
    if step.ReadCard? || step.Commit? { assert Holds(prefix, s, step.t); }
  }

  // So one key has one component, and its row says so.
  lemma OneComponentPerKey(prefix: Prefix, states: seq<Tables>, steps: seq<Step>, i: nat,
                           x: ComponentId, y: ComponentId)
    requires Run(prefix, states, steps) && i < |states|
    requires var rows := states[i].server.rows;
             x in rows && y in rows && rows[x].bornOf.Some? && rows[x].bornOf == rows[y].bornOf
    ensures x == y
  {
    RunInvariant(prefix, states, steps, i);
  }
}
