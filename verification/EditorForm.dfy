/** The editor's form: what a loaded card becomes, and what the form sends back. */
module EditorForm {
  import opened Prelude
  import opened SpecificationKeys
  import opened SpecificationNumbers
  import opened SpecificationTable

  // ---------------------------------------------------------------------------------------------
  // Comma-separated lists
  // ---------------------------------------------------------------------------------------------

  function Joined(items: seq<string>): string {
    if items == [] then "" else if |items| == 1 then items[0] else items[0] + ", " + Joined(items[1..])
  }

  predicate NotComma(c: char) {
    c != ','
  }

  predicate CommaFree(s: string) {
    forall c <- s :: NotComma(c)
  }

  function Pieces(s: string): seq<string>
    decreases |s|
  {
    var first := Take(s, NotComma);
    if first.rest == "" then [first.head] else [first.head] + Pieces(first.rest[1..])
  }

  function Kept(pieces: seq<string>): seq<string> {
    if pieces == [] then []
    else (if Trim(pieces[0]) == "" then [] else [Trim(pieces[0])]) + Kept(pieces[1..])
  }

  function CommaList(s: string): seq<string> {
    Kept(Pieces(s))
  }

  predicate Entry(item: string) {
    item != "" && Trimmed(item) && CommaFree(item)
  }

  lemma PiecesOf(head: string, rest: string)
    requires CommaFree(head)
    ensures Pieces(head + "," + rest) == [head] + Pieces(rest)
    ensures Pieces(head) == [head]
  {
    TakeOf(head, "," + rest, NotComma);
    assert head + "," + rest == head + ("," + rest);
    TakeOf(head, "", NotComma);
    assert head + "" == head;
  }

  // A blank before the text changes only the first piece, and trimming undoes that.
  lemma LeadingBlank(s: string)
    ensures CommaList(" " + s) == CommaList(s)
  {
    var first := Take(s, NotComma);
    assert (" " + s)[1..] == s;
    assert Trim(" " + first.head) == Trim(first.head) by {
      assert (" " + first.head)[1..] == first.head;
    }
    assert Pieces(" " + s)[0] == " " + first.head && Pieces(" " + s)[1..] == Pieces(s)[1..];
  }

  lemma OneEntry(item: string)
    requires Entry(item)
    ensures CommaList(item) == [item]
  {
    TrimExact(item);
    PiecesOf(item, "");
    assert Kept([item]) == [item] + Kept([]);
  }

  lemma FirstEntry(item: string, rest: string)
    requires Entry(item)
    ensures CommaList(item + ", " + rest) == [item] + CommaList(rest)
  {
    TrimExact(item);
    assert item + ", " + rest == item + "," + (" " + rest);
    PiecesOf(item, " " + rest);
    LeadingBlank(rest);
    assert ([item] + Pieces(" " + rest))[1..] == Pieces(" " + rest);
  }

  lemma {:induction false} JoinedIsKept(items: seq<string>)
    requires forall item <- items :: Entry(item)
    ensures CommaList(Joined(items)) == items
  {
    if items == [] {
      assert Pieces("") == [""] && Kept([""]) == [];
    } else if |items| == 1 {
      OneEntry(items[0]);
    } else {
      FirstEntry(items[0], Joined(items[1..]));
      JoinedIsKept(items[1..]);
    }
  }

  lemma {:induction false} PiecesHaveNoComma(s: string)
    ensures forall piece <- Pieces(s) :: CommaFree(piece)
    decreases |s|
  {
    var first := Take(s, NotComma);
    if first.rest != "" { PiecesHaveNoComma(first.rest[1..]); }
  }

  lemma TrimIsPart(s: string)
    ensures forall c <- Trim(s) :: c in s
  {
    TrimLeftIsPart(s);
  }

  lemma {:induction false} TrimLeftIsPart(s: string)
    ensures forall c <- TrimLeft(s) :: c in s
  {
    if s != "" && IsSpace(s[0]) { TrimLeftIsPart(s[1..]); }
  }

  lemma {:induction false} KeptAreEntries(pieces: seq<string>)
    requires forall piece <- pieces :: CommaFree(piece)
    ensures forall item <- Kept(pieces) :: Entry(item)
  {
    if pieces != [] {
      KeptAreEntries(pieces[1..]);
      TrimExact(pieces[0]);
      TrimIsPart(pieces[0]);
      assert CommaFree(pieces[0]) && CommaFree(Trim(pieces[0]));
    }
  }

  // Splitting undoes joining exactly for lists of trimmed, non-empty, comma-free entries.
  lemma ListRoundTrip(items: seq<string>)
    ensures CommaList(Joined(items)) == items <==> forall item <- items :: Entry(item)
  {
    if forall item <- items :: Entry(item) { JoinedIsKept(items); }
    PiecesHaveNoComma(Joined(items));
    KeptAreEntries(Pieces(Joined(items)));
  }

  // What a user types is read piece by piece between the commas: each piece without the white space at its
  // ends, blank ones left out.
  lemma ListIsReadByPieces(piece: string, rest: string)
    requires CommaFree(piece)
    ensures CommaList(piece) == if Spaces(piece) then [] else [Trim(piece)]
    ensures CommaList(piece + "," + rest) == CommaList(piece) + CommaList(rest)
  {
    TrimBlank(piece);
    PiecesOf(piece, rest);
    assert ([piece] + Pieces(rest))[1..] == Pieces(rest);
    assert Kept([piece]) == (if Trim(piece) == "" then [] else [Trim(piece)]) + Kept([]);
  }

  // The server's test of a list of aliases or tags, but for the uniqueness of its normalised entries.
  predicate ServerTakes(items: seq<string>) {
    |items| <= 20 && forall item <- items :: Trim(item) != "" && |Trim(item)| <= 100
  }

  // An entry with a comma in it passes the server and comes back from the form as two.
  lemma CommaEntryIsSplit(first: string, second: string)
    requires Entry(first) && Entry(second) && |first| + |second| <= 99
    ensures ServerTakes([first + "," + second])
    ensures CommaList(Joined([first + "," + second])) == [first, second]
  {
    var item := first + "," + second;
    assert Trimmed(item);
    TrimExact(item);
    TrimExact(first);
    PiecesOf(first, second);
    OneEntry(second);
    assert Pieces(item)[1..] == Pieces(second);
  }

  // ---------------------------------------------------------------------------------------------
  // Optional texts
  // ---------------------------------------------------------------------------------------------

  function Nullable(s: string): Option<string> {
    if Trim(s) == "" then None else Some(Trim(s))
  }

  predicate Note(note: Option<string>) {
    note.Some? ==> note.value != "" && Trimmed(note.value)
  }

  // A blank note is no note; any other is kept but for the white space at its ends.
  lemma NoteIsRead(s: string)
    ensures Nullable(s) == if Spaces(s) then None else Some(Trim(s))
  {
    TrimBlank(s);
  }

  lemma NoteRoundTrip(note: Option<string>)
    ensures Nullable(note.GetOr("")) == note <==> Note(note)
  {
    TrimExact(note.GetOr(""));
  }

  // ---------------------------------------------------------------------------------------------
  // The whole form
  // ---------------------------------------------------------------------------------------------

  // The fields the form passes through as they are.
  datatype Prose = Prose(
    title: string, summary: string, description: string, category: string, difficulty: string, manual: bool)

  datatype Notes<T> = Notes(manufacturer: T, model: T, purpose: T, usage: T, safety: T, teacher: T)

  datatype Compatibility = Compatibility(target: string, name: string, version: Option<string>, notes: Option<string>)

  datatype Example<L> = Example(
    title: string, language: string, practice: string, hints: seq<string>, body: string, libraries: L,
    explanation: Option<string>, visibility: string)

  // A card's editable fields, which are also what the form sends.
  datatype Draft = Draft(
    slug: string, prose: Prose, aliases: seq<string>, tags: seq<string>, notes: Notes<Option<string>>,
    specifications: seq<Row>, compatibility: seq<Compatibility>, examples: seq<Example<seq<string>>>)

  datatype State = State(
    slug: string, prose: Prose, aliases: string, tags: string, notes: Notes<string>,
    specifications: seq<Row>, compatibility: seq<Compatibility>, examples: seq<Example<string>>)

  function Shown(notes: Notes<Option<string>>): Notes<string> {
    Notes(notes.manufacturer.GetOr(""), notes.model.GetOr(""), notes.purpose.GetOr(""), notes.usage.GetOr(""),
          notes.safety.GetOr(""), notes.teacher.GetOr(""))
  }

  function Read(notes: Notes<string>): Notes<Option<string>> {
    Notes(Nullable(notes.manufacturer), Nullable(notes.model), Nullable(notes.purpose), Nullable(notes.usage),
          Nullable(notes.safety), Nullable(notes.teacher))
  }

  function ShownExample(e: Example<seq<string>>): Example<string> {
    Example(e.title, e.language, e.practice, e.hints, e.body, Joined(e.libraries), e.explanation, e.visibility)
  }

  // Lower-casing is a parameter.
  function ReadExample(lower: string -> string, e: Example<string>): Example<seq<string>> {
    Example(Trim(e.title), lower(Trim(e.language)), Trim(e.practice), Mapped(e.hints, Trim), e.body,
            CommaList(e.libraries), Nullable(e.explanation.GetOr("")), e.visibility)
  }

  function ReadCompatibility(c: Compatibility): Compatibility {
    Compatibility(c.target, Trim(c.name), Nullable(c.version.GetOr("")), Nullable(c.notes.GetOr("")))
  }

  function StateFromCard(card: Draft): State {
    State(card.slug, card.prose, Joined(card.aliases), Joined(card.tags), Shown(card.notes),
          WithTrailing(card.specifications), card.compatibility, Mapped(card.examples, ShownExample))
  }

  // The parameters the form's own code takes from its surroundings.
  datatype Locale = Locale(letter: char -> bool, key: string -> string, lower: string -> string)

  function ToDraftInput(locale: Locale, state: State, originals: seq<Row>): Draft {
    Draft(Trim(state.slug), state.prose, CommaList(state.aliases), CommaList(state.tags), Read(state.notes),
          Inputs(locale.letter, locale.key, state.specifications, originals),
          Mapped(state.compatibility, ReadCompatibility),
          Mapped(state.examples, (e: Example<string>) => ReadExample(locale.lower, e)))
  }

  // ---------------------------------------------------------------------------------------------
  // When a card survives the form
  // ---------------------------------------------------------------------------------------------

  predicate Entries(items: seq<string>) {
    forall item <- items :: Entry(item)
  }

  predicate TidyNotes(notes: Notes<Option<string>>) {
    && Note(notes.manufacturer) && Note(notes.model) && Note(notes.purpose) && Note(notes.usage)
    && Note(notes.safety) && Note(notes.teacher)
  }

  // What lower-casing is known to do: it does it once and for all, and adds no white space at the ends.
  ghost predicate Lowers(lower: string -> string) {
    forall s: string :: lower(lower(s)) == lower(s) && (Trimmed(s) ==> Trimmed(lower(s)))
  }

  predicate TidyCompatibility(c: Compatibility) {
    Trimmed(c.name) && Note(c.version) && Note(c.notes)
  }

  predicate TidyExample(lower: string -> string, e: Example<seq<string>>) {
    && Trimmed(e.title) && Trimmed(e.language) && lower(e.language) == e.language && Trimmed(e.practice)
    && (forall hint <- e.hints :: Trimmed(hint)) && Entries(e.libraries) && Note(e.explanation)
  }

  predicate TidyCard(locale: Locale, card: Draft) {
    && Trimmed(card.slug) && Entries(card.aliases) && Entries(card.tags) && TidyNotes(card.notes)
    && Loadable(card.specifications) && (forall c <- card.compatibility :: TidyCompatibility(c))
    && (forall e <- card.examples :: TidyExample(locale.lower, e))
  }

  lemma NotesRoundTrip(notes: Notes<Option<string>>)
    ensures Read(Shown(notes)) == notes <==> TidyNotes(notes)
  {
    NoteRoundTrip(notes.manufacturer);
    NoteRoundTrip(notes.model);
    NoteRoundTrip(notes.purpose);
    NoteRoundTrip(notes.usage);
    NoteRoundTrip(notes.safety);
    NoteRoundTrip(notes.teacher);
  }

  lemma CompatibilityRoundTrip(c: Compatibility)
    ensures ReadCompatibility(c) == c <==> TidyCompatibility(c)
  {
    TrimExact(c.name);
    NoteRoundTrip(c.version);
    NoteRoundTrip(c.notes);
  }

  lemma LanguageRoundTrip(lower: string -> string, language: string)
    requires Lowers(lower)
    ensures lower(Trim(language)) == language <==> Trimmed(language) && lower(language) == language
  {
    TrimExact(language);
    if lower(Trim(language)) == language {
      assert lower(lower(Trim(language))) == lower(Trim(language)) && Trimmed(lower(Trim(language)));
    }
  }

  lemma ExampleRoundTrip(lower: string -> string, e: Example<seq<string>>)
    requires Lowers(lower)
    ensures ReadExample(lower, ShownExample(e)) == e <==> TidyExample(lower, e)
  {
    TrimExact(e.title);
    LanguageRoundTrip(lower, e.language);
    TrimExact(e.practice);
    forall hint | hint in e.hints ensures Trim(hint) == hint <==> Trimmed(hint) { TrimExact(hint); }
    ListRoundTrip(e.libraries);
    NoteRoundTrip(e.explanation);
    MappedSame(e.hints, Trim);
  }

  lemma MappedSame<T>(s: seq<T>, f: T -> T)
    ensures Mapped(s, f) == s <==> forall x <- s :: f(x) == x
  {
  }

  lemma ExamplesRoundTrip(lower: string -> string, examples: seq<Example<seq<string>>>)
    requires Lowers(lower)
    ensures Mapped(Mapped(examples, ShownExample), (e: Example<string>) => ReadExample(lower, e)) == examples
            <==> forall e <- examples :: TidyExample(lower, e)
  {
    forall i | 0 <= i < |examples|
      ensures ReadExample(lower, ShownExample(examples[i])) == examples[i] <==> TidyExample(lower, examples[i])
    {
      ExampleRoundTrip(lower, examples[i]);
    }
  }

  // Opening a card and sending it back unedited sends the card's own fields, stored numeric metadata
  // included, exactly when the card is in the form's normal shape.
  lemma FormRoundTrip(locale: Locale, card: Draft)
    requires DistinctKeys(card.specifications) && Lowers(locale.lower)
    ensures ToDraftInput(locale, StateFromCard(card), card.specifications) == card <==> TidyCard(locale, card)
  {
    TrimExact(card.slug);
    ListRoundTrip(card.aliases);
    ListRoundTrip(card.tags);
    NotesRoundTrip(card.notes);
    RowsRoundTrip(locale.letter, locale.key, card.specifications);
    forall c | c in card.compatibility ensures ReadCompatibility(c) == c <==> TidyCompatibility(c) {
      CompatibilityRoundTrip(c);
    }
    MappedSame(card.compatibility, ReadCompatibility);
    ExamplesRoundTrip(locale.lower, card.examples);
  }
}
