/**
 The server side of the editor: components under their edit tokens, and the table that makes
 draft creation idempotent. A request is one transaction on a locked row, so one atomic step.
 */
module Server {
  import opened Prelude
  import opened Client
  import opened EditTokens

  datatype Creation = Creation(owner: nat, component: ComponentId)

  // `history` remembers the document each component had at each committed token.
  datatype Catalog = Catalog(
    rows: map<ComponentId, Row>,
    creations: map<CreationKey, Creation>,
    history: map<(ComponentId, nat), Document>)

  // What the transaction meets beyond the protocol: the id a new row would get, the UPDATEs it
  // issues, and whether a permission, validation or constraint error ends it.
  datatype Ruling = Ruling(newId: ComponentId, bumps: seq<bool>, deny: bool)

  function CardOf(id: ComponentId, row: Row): Card {
    Card(id, row.token, row.content)
  }

  function Commit(server: Catalog, id: ComponentId, row: Row): Catalog {
    server.(rows := server.rows[id := row], history := server.history[(id, row.token) := row.content])
  }

  function Born(server: Catalog, actor: nat, key: CreationKey, content: Document, id: ComponentId): Catalog {
    Commit(server, id, Row(content, 1, 1, Some(key))).(creations := server.creations[key := Creation(actor, id)])
  }

  function ServeCreate(server: Catalog, actor: nat, key: CreationKey, content: Document, ruling: Ruling)
    : (Catalog, Reply)
  {
    if ruling.deny then (server, Refused(false))
    else if key in server.creations then
      var found := server.creations[key];
      if found.owner != actor || found.component !in server.rows then (server, Refused(false))
      else (server, Got(CardOf(found.component, server.rows[found.component])))
    else
      (Born(server, actor, key, content, ruling.newId),
       Got(CardOf(ruling.newId, Row(content, 1, 1, Some(key)))))
  }

  // `DocumentSynchronization.lock`, then the change: saves keep the revision, commands record it.
  function ServeLocked(server: Catalog, id: ComponentId, token: nat, content: Option<Document>, ruling: Ruling)
    : (Catalog, Reply)
  {
    if id !in server.rows then (server, Refused(false))
    else if server.rows[id].token != token then (server, Refused(true))
    else if ruling.deny then (server, Refused(false))
    else
      var row := Updated(server.rows[id], content.GetOr(server.rows[id].content), ruling.bumps);
      (Commit(server, id, row), Got(CardOf(id, row)))
  }

  function Serve(server: Catalog, actor: nat, request: Request, ruling: Ruling): (Catalog, Reply) {
    match request
    case Create(key, content) => ServeCreate(server, actor, key, content, ruling)
    case Save(id, token, content) => ServeLocked(server, id, token, Some(content), ruling)
    case Command(id, token) => ServeLocked(server, id, token, None, ruling)
  }

  // The history's last document of each component is the row's.
  ghost predicate RowsRecorded(server: Catalog) {
    forall id | id in server.rows ::
      && (id, server.rows[id].token) in server.history
      && server.history[(id, server.rows[id].token)] == server.rows[id].content
  }

  ghost predicate HistoryBehind(server: Catalog) {
    forall k | k in server.history :: k.0 in server.rows && k.1 <= server.rows[k.0].token
  }

  ghost predicate BirthsRecorded(server: Catalog) {
    forall id | id in server.rows && server.rows[id].bornOf.Some? ::
      Recorded(server.creations, id, server.rows[id].bornOf.value)
  }

  ghost predicate ServerOk(server: Catalog) {
    RowsRecorded(server) && HistoryBehind(server) && BirthsRecorded(server)
  }

  ghost predicate Recorded(creations: map<CreationKey, Creation>, id: ComponentId, key: CreationKey) {
    key in creations && creations[key].component == id
  }

  // Components stay, tokens only rise, and no committed version is rewritten.
  ghost predicate Grows(server: Catalog, later: Catalog) {
    && (forall id | id in server.rows :: id in later.rows && server.rows[id].token <= later.rows[id].token)
    && (forall k | k in server.history :: k in later.history && later.history[k] == server.history[k])
    && (forall key | key in server.creations :: key in later.creations && later.creations[key] == server.creations[key])
  }

  lemma GrowsOn(server: Catalog, later: Catalog, last: Catalog)
    requires Grows(server, later) && Grows(later, last)
    ensures Grows(server, last)
  {
  }

  // A card some committed version really had.
  ghost predicate Real(server: Catalog, card: Card) {
    && card.id in server.rows && card.token <= server.rows[card.id].token
    && (card.id, card.token) in server.history && server.history[(card.id, card.token)] == card.content
  }

  predicate Advances(server: Catalog, id: ComponentId, row: Row) {
    if id in server.rows then server.rows[id].token < row.token && row.bornOf == server.rows[id].bornOf
    else row.bornOf.None?
  }

  lemma CommitOk(server: Catalog, id: ComponentId, row: Row)
    requires ServerOk(server) && Advances(server, id, row)
    ensures ServerOk(Commit(server, id, row))
  {
  }

  lemma CommitGrows(server: Catalog, id: ComponentId, row: Row)
    requires ServerOk(server) && Advances(server, id, row)
    ensures ServerOk(Commit(server, id, row)) && Grows(server, Commit(server, id, row))
    ensures Real(Commit(server, id, row), CardOf(id, row))
  {
    CommitOk(server, id, row);
  }

  // What an answer promises about the request it answers.
  ghost predicate Answered(server: Catalog, request: Request, reply: Reply) {
    reply.Got? ==>
      && Real(server, reply.card)
      && (request.Create? ==> Recorded(server.creations, reply.card.id, request.key))
      && (request.Save? ==>
            && reply.card.id == request.id && request.token < reply.card.token
            && reply.card.content == request.content)
      && (request.Command? ==>
            && reply.card.id == request.id && request.token < reply.card.token
            && (request.id, request.token) in server.history
            && reply.card.content == server.history[(request.id, request.token)])
  }

  lemma BornRows(server: Catalog, actor: nat, key: CreationKey, content: Document, id: ComponentId)
    requires RowsRecorded(server) && HistoryBehind(server) && id !in server.rows
    ensures var born := Born(server, actor, key, content, id);
            RowsRecorded(born) && HistoryBehind(born) && Real(born, CardOf(id, Row(content, 1, 1, Some(key))))
  {
  }

  lemma BornRecords(server: Catalog, actor: nat, key: CreationKey, content: Document, id: ComponentId)
    requires BirthsRecorded(server) && id !in server.rows && key !in server.creations
    ensures BirthsRecorded(Born(server, actor, key, content, id))
  {
  }

  lemma BornGrows(server: Catalog, actor: nat, key: CreationKey, content: Document, id: ComponentId)
    requires HistoryBehind(server) && id !in server.rows && key !in server.creations
    ensures Grows(server, Born(server, actor, key, content, id))
  {
  }

  lemma BornKeeps(server: Catalog, actor: nat, key: CreationKey, content: Document, id: ComponentId)
    requires ServerOk(server) && id !in server.rows && key !in server.creations
    ensures ServerOk(Born(server, actor, key, content, id)) && Grows(server, Born(server, actor, key, content, id))
    ensures Real(Born(server, actor, key, content, id), CardOf(id, Row(content, 1, 1, Some(key))))
  {
    BornRows(server, actor, key, content, id);
    BornRecords(server, actor, key, content, id);
    BornGrows(server, actor, key, content, id);
  }

  lemma ServeCreateKeeps(server: Catalog, actor: nat, key: CreationKey, content: Document, ruling: Ruling)
    requires ServerOk(server) && ruling.newId !in server.rows
    ensures var (later, reply) := ServeCreate(server, actor, key, content, ruling);
            && ServerOk(later) && Grows(server, later)
            && (reply.Got? ==> Real(later, reply.card) && Recorded(later.creations, reply.card.id, key))
  {
    if key !in server.creations { BornKeeps(server, actor, key, content, ruling.newId); }
  }

  lemma ServeLockedKeeps(server: Catalog, id: ComponentId, token: nat, content: Option<Document>, ruling: Ruling)
    requires ServerOk(server) && ruling.bumps != []
    ensures var (later, reply) := ServeLocked(server, id, token, content, ruling);
            && ServerOk(later) && Grows(server, later)
            && (reply.Got? ==>
                  && Real(later, reply.card) && reply.card.id == id && token < reply.card.token
                  && (id, token) in later.history
                  && reply.card.content == content.GetOr(later.history[(id, token)]))
  {
    if id in server.rows {
      CommitGrows(server, id, Updated(server.rows[id], content.GetOr(server.rows[id].content), ruling.bumps));
    }
  }

  lemma ServeKeeps(server: Catalog, actor: nat, request: Request, ruling: Ruling)
    requires ServerOk(server) && ruling.newId !in server.rows && ruling.bumps != []
    ensures var (later, reply) := Serve(server, actor, request, ruling);
            ServerOk(later) && Grows(server, later) && Answered(later, request, reply)
  {
    match request {
      case Create(key, content) => ServeCreateKeeps(server, actor, key, content, ruling);
      case Save(id, token, content) => ServeLockedKeeps(server, id, token, Some(content), ruling);
      case Command(id, token) => ServeLockedKeeps(server, id, token, None, ruling);
    }
  }

  // A write is accepted exactly when nothing denies it and it carries the token of the version
  // it replaces; anything else leaves the database as it was.
  lemma AcceptedExactly(server: Catalog, actor: nat, request: Request, ruling: Ruling)
    requires !request.Create? && ruling.bumps != []
    ensures var (later, reply) := Serve(server, actor, request, ruling);
            && (reply.Got? <==>
                  !ruling.deny && request.id in server.rows && server.rows[request.id].token == request.token)
            && (reply.Refused? ==> later == server)
            && (reply.Got? ==> reply.card.token == request.token + |ruling.bumps|)
  {
  }

  // Which refusal: a conflict exactly on a stored token other than the one carried, whatever else would
  // have denied the write; any other refusal on a missing row or a denial.
  lemma RefusedExactly(server: Catalog, actor: nat, request: Request, ruling: Ruling)
    requires !request.Create?
    ensures var reply := Serve(server, actor, request, ruling).1;
      && (reply == Refused(true) <==> request.id in server.rows && server.rows[request.id].token != request.token)
      && (reply == Refused(false) <==>
            request.id !in server.rows || (ruling.deny && server.rows[request.id].token == request.token))
  {
  }

  // A create is refused exactly on a denial, or on a key whose component is another owner's or is gone; a
  // refusal changes nothing.
  lemma CreateRefusedExactly(server: Catalog, actor: nat, key: CreationKey, content: Document, ruling: Ruling)
    ensures var (later, reply) := Serve(server, actor, Create(key, content), ruling);
      && (reply.Refused? <==>
            ruling.deny || (key in server.creations
                            && (server.creations[key].owner != actor
                                || server.creations[key].component !in server.rows)))
      && (reply.Refused? ==> reply == Refused(false) && later == server)
  {
  }

  // A request changes no other row than the one it answers with, and gives no other key away.
  lemma OthersUntouched(server: Catalog, actor: nat, request: Request, ruling: Ruling, id: ComponentId)
    requires id in server.rows && ruling.newId !in server.rows
    requires var reply := Serve(server, actor, request, ruling).1; reply.Got? ==> reply.card.id != id
    ensures var later := Serve(server, actor, request, ruling).0;
      id in later.rows && later.rows[id] == server.rows[id]
  {
  }

  // A new key gets a new component with the document sent, at its first token and revision. Whoever
  // repeats the request, with whatever document, changes nothing: its owner is answered with the same
  // card, anybody else is refused.
  lemma CreateIsIdempotent(server: Catalog, actor: nat, key: CreationKey, content: Document, ruling: Ruling,
                           other: nat, again: Document, later: Ruling)
    requires key !in server.creations && !ruling.deny && !later.deny
    ensures var (created, reply) := Serve(server, actor, Create(key, content), ruling);
      && reply == Got(Card(ruling.newId, 1, content))
      && created.rows == server.rows[ruling.newId := Row(content, 1, 1, Some(key))]
      && Serve(created, other, Create(key, again), later)
         == (created, if other == actor then reply else Refused(false))
  {
  }

  // A key stays with its owner: it answers nobody else, whatever happened to its component since.
  lemma OnlyOwnerIsAnswered(server: Catalog, actor: nat, key: CreationKey, content: Document, ruling: Ruling)
    ensures var (later, reply) := Serve(server, actor, Create(key, content), ruling);
      reply.Got? ==> key in later.creations && later.creations[key].owner == actor
                     && later.creations[key].component == reply.card.id
  {
  }
}
