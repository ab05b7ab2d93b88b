/**
 Edit tokens. A database trigger raises a component's `edit_token` on every row update, while its
 semantic `revision` moves only with recorded history. Old clients that know only the revision
 are let through only when it equals the token.
 */
module EditTokens {
  import opened Prelude
  import opened Client

  datatype Row = Row(content: Document, token: nat, revision: nat, bornOf: Option<CreationKey>)

  // One UPDATE of a row: the trigger overwrites whatever token the statement would have stored.
  function Trigger(row: Row, content: Document, bump: bool): Row {
    row.(content := content, token := row.token + 1, revision := if bump then row.revision + 1 else row.revision)
  }

  // How many of the UPDATEs record history.
  function Recording(bumps: seq<bool>): nat {
    if bumps == [] then 0 else Recording(bumps[..|bumps| - 1]) + if bumps[|bumps| - 1] then 1 else 0
  }

  // A transaction's UPDATE statements, in order; each says whether it records history.
  function Updated(row: Row, content: Document, bumps: seq<bool>): (r: Row)
    ensures r.token == row.token + |bumps|
    ensures r.revision == row.revision + Recording(bumps)
    ensures r.bornOf == row.bornOf
    ensures bumps != [] ==> r.content == content
  {
    if bumps == [] then row else Trigger(Updated(row, content, bumps[..|bumps| - 1]), content, bumps[|bumps| - 1])
  }

  // The migration's backfill, before the trigger exists.
  function Backfilled(row: Row): Row {
    row.(token := row.revision)
  }

  // A row's whole life: each element is one UPDATE.
  function Lived(row: Row, life: seq<(Document, bool)>): Row
    decreases |life|
  {
    if life == [] then row else Lived(Trigger(row, life[0].0, life[0].1), life[1..])
  }

  function Expected(revision: nat, token: Option<nat>): nat {
    if token.Some? then token.value else revision
  }

  predicate GuardPasses(row: Row, revision: nat, token: Option<nat>) {
    row.token == Expected(revision, token)
  }

  // Nothing but the number of updates moves the token, and a revision never overtakes it: their
  // gap only grows.
  lemma {:induction false} LifeCounts(row: Row, life: seq<(Document, bool)>)
    decreases |life|
    ensures Lived(row, life).token == row.token + |life|
    ensures Lived(row, life).token - Lived(row, life).revision >= row.token - row.revision
  {
    if life != [] { LifeCounts(Trigger(row, life[0].0, life[0].1), life[1..]); }
  }

  lemma {:induction false} LivedSplit(row: Row, first: seq<(Document, bool)>, second: seq<(Document, bool)>)
    decreases |first|
    ensures Lived(row, first + second) == Lived(Lived(row, first), second)
  {
    if first == [] {
      assert first + second == second;
    } else {
      assert (first + second)[1..] == first[1..] + second;
      LivedSplit(Trigger(row, first[0].0, first[0].1), first[1..], second);
    }
  }

  // From the backfill on, a revision never exceeds its token.
  lemma RevisionBelowToken(row: Row, life: seq<(Document, bool)>)
    ensures Lived(Backfilled(row), life).revision <= Lived(Backfilled(row), life).token
  {
    LifeCounts(Backfilled(row), life);
  }

  // The legacy guard is sound, and exactly this strict: a request carrying only the revision
  // read after `before` passes, `since` further updates later, just when there were none and the
  // row was still in step with its token when it was read.
  lemma LegacyGuardExact(row: Row, before: seq<(Document, bool)>, since: seq<(Document, bool)>)
    ensures var read := Lived(Backfilled(row), before);
            GuardPasses(Lived(read, since), read.revision, None) <==> since == [] && read.token == read.revision
  {
    LifeCounts(Backfilled(row), before);
    LifeCounts(Lived(Backfilled(row), before), since);
  }

  // One autosave (an update without history) locks revision-only clients out for good.
  lemma AutosaveLocksOutLegacy(row: Row, before: seq<(Document, bool)>, text: Document, after: seq<(Document, bool)>)
    requires row.revision <= row.token
    ensures var now := Lived(row, before + [(text, false)] + after);
            forall revision: nat | revision <= now.revision :: !GuardPasses(now, revision, None)
  {
    var upTo := before + [(text, false)];
    LivedSplit(row, upTo, after);
    LivedSplit(row, before, [(text, false)]);
    LifeCounts(row, before);
    var saved := Trigger(Lived(row, before), text, false);
    assert Lived(Lived(row, before), [(text, false)]) == Lived(saved, []);
    LifeCounts(saved, after);
  }
}
