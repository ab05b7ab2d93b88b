/**
 The tables behind the editor and the transactions on them: every UPDATE of a component fires the
 token trigger, and a transaction that fails is rolled back.
 */
module Database {
  import opened Prelude
  import opened Client
  import opened EditTokens
  import opened Server

  datatype GuardError = ComponentNotFound | RevisionConflict

  class Tables {
    var components: map<ComponentId, Row>
    var creations: map<CreationKey, Creation>
    ghost var history: map<(ComponentId, nat), Document>

    ghost function State(): Catalog
      reads this
    {
      Catalog(components, creations, history)
    }

    // The migration: `UPDATE components SET edit_token=revision`, before the trigger exists.
    method Migrate()
      modifies this`components
      ensures components.Keys == old(components).Keys
      ensures forall id | id in components :: components[id] == Backfilled(old(components)[id])
    {
      var todo := components.Keys;
      while todo != {}
        invariant todo <= components.Keys == old(components).Keys
        invariant forall id | id in todo :: components[id] == old(components)[id]
        invariant forall id | id in components && id !in todo :: components[id] == Backfilled(old(components)[id])
        decreases |todo|
      {
        var id :| id in todo;
        components := components[id := components[id].(token := components[id].revision)];
        todo := todo - {id};
      }
    }

    // One UPDATE statement on one component. Whatever token it sets, the trigger that runs before the
    // row is stored puts the old one's successor there.
    method Update(id: ComponentId, content: Document, token: nat, bump: bool)
      requires id in components
      modifies this`components
      ensures components == old(components)[id := Trigger(old(components)[id], content, bump)]
      ensures components[id].token == old(components)[id].token + 1
    {
      var stored := components[id];
      var row := Row(content, token, if bump then stored.revision + 1 else stored.revision, stored.bornOf);
      row := row.(token := stored.token + 1);
      components := components[id := row];
    }

    // Legacy requests carry a revision and perhaps a token; the row is locked and compared.
    method LegacyTokenGuard(id: ComponentId, revision: nat, token: Option<nat>) returns (r: Result<Row, GuardError>)
      ensures r.Ok? <==> id in components && GuardPasses(components[id], revision, token)
      ensures r.Ok? ==> r.value == components[id]
      ensures r.Err? ==> r.error == if id in components then RevisionConflict else ComponentNotFound
    {
      if id !in components {
        return Err(ComponentNotFound);
      }
      var row := components[id];
      var expected := if token.Some? then token.value else revision;
      if row.token != expected {
        return Err(RevisionConflict);
      }
      return Ok(row);
    }

    // A save (`content` given) or a command (the document stays) on a locked row. The UPDATEs are
    // issued before the last check, so a refusal has to undo them.
    method ChangeLocked(id: ComponentId, token: nat, content: Option<Document>, ruling: Ruling) returns (reply: Reply)
      modifies this
      ensures (State(), reply) == ServeLocked(old(State()), id, token, content, ruling)
    {
      if id !in components {
        return Refused(false);
      }
      if components[id].token != token {
        return Refused(true);
      }
      var before := components;
      var text := content.GetOr(components[id].content);
      for i := 0 to |ruling.bumps|
        invariant id in components && before == old(components)
        invariant components == before[id := Updated(before[id], text, ruling.bumps[..i])]
        invariant creations == old(creations) && history == old(history)
      {
        assert ruling.bumps[..i + 1][..i] == ruling.bumps[..i];
        Update(id, text, components[id].token, ruling.bumps[i]);
      }
      assert ruling.bumps[..|ruling.bumps|] == ruling.bumps;
      if ruling.deny {
        components := before;
        return Refused(false);
      }
      history := history[(id, components[id].token) := components[id].content];
      return Got(CardOf(id, components[id]));
    }

    // Idempotent creation under the key's advisory lock.
    method Create(actor: nat, key: CreationKey, content: Document, ruling: Ruling) returns (reply: Reply)
      modifies this
      ensures (State(), reply) == ServeCreate(old(State()), actor, key, content, ruling)
    {
      if ruling.deny {
        return Refused(false);
      }
      if key in creations {
        var found := creations[key];
        if found.owner != actor || found.component !in components {
          return Refused(false);
        }
        return Got(CardOf(found.component, components[found.component]));
      }
      var row := Row(content, 1, 1, Some(key));
      components := components[ruling.newId := row];
      creations := creations[key := Creation(actor, ruling.newId)];
      history := history[(ruling.newId, 1) := content];
      return Got(CardOf(ruling.newId, row));
    }

    method Handle(actor: nat, request: Request, ruling: Ruling) returns (reply: Reply)
      modifies this
      ensures (State(), reply) == Serve(old(State()), actor, request, ruling)
    {
      match request
      case Create(key, content) => reply := Create(actor, key, content, ruling);
      case Save(id, token, content) => reply := ChangeLocked(id, token, Some(content), ruling);
      case Command(id, token) => reply := ChangeLocked(id, token, None, ruling);
    }
  }
}
