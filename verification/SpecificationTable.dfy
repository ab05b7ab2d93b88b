/** The editor's specification table: its trailing blank row, pasted rows, and what it sends. */
module SpecificationTable {
  import opened Prelude
  import opened SpecificationKeys
  import opened SpecificationNumbers

  // ---------------------------------------------------------------------------------------------
  // White space
  // ---------------------------------------------------------------------------------------------

  function TrimLeft(s: string): (r: string)
    ensures |r| <= |s| && (r == s || |r| < |s|)
  {
    if s != "" && IsSpace(s[0]) then TrimLeft(s[1..]) else s
  }

  function TrimRight(s: string): string {
    s[..TextEnd(s)]
  }

  function Trim(s: string): string {
    TrimRight(TrimLeft(s))
  }

  // Every run of white space becomes one blank.
  function Blanks(s: string): string
    decreases |s|
  {
    if s == "" then ""
    else if IsSpace(s[0]) then " " + Blanks(TrimLeft(s[1..]))
    else [s[0]] + Blanks(s[1..])
  }

  function Normalised(s: string): string {
    Blanks(Trim(s))
  }

  predicate Trimmed(s: string) {
    s == "" || (!IsSpace(s[0]) && !IsSpace(s[|s| - 1]))
  }

  predicate SingleSpaced(s: string) {
    forall i | 0 <= i < |s| && IsSpace(s[i]) :: s[i] == ' ' && (i + 1 < |s| ==> !IsSpace(s[i + 1]))
  }

  lemma {:induction false} TrimLeftSpec(s: string)
    ensures TrimLeft(s) != "" ==> !IsSpace(TrimLeft(s)[0])
    ensures s != "" && !IsSpace(s[0]) ==> TrimLeft(s) == s
  {
    if s != "" && IsSpace(s[0]) { TrimLeftSpec(s[1..]); }
  }

  lemma TrimExact(s: string)
    ensures Trimmed(Trim(s)) && (Trim(s) == s <==> Trimmed(s))
  {
    TrimLeftSpec(s);
    if s != "" && !IsSpace(s[0]) && !IsSpace(s[|s| - 1]) { assert TextEnd(s) == |s|; }
  }

  lemma {:induction false} BlanksShape(s: string)
    ensures |Blanks(s)| <= |s|
    ensures s != "" ==> Blanks(s) != "" && (IsSpace(Blanks(s)[0]) <==> IsSpace(s[0]))
    ensures SingleSpaced(Blanks(s))
    decreases |s|
  {
    if s != "" {
      if IsSpace(s[0]) {
        TrimLeftSpec(s[1..]);
        BlanksShape(TrimLeft(s[1..]));
        Prepended(' ', Blanks(TrimLeft(s[1..])));
      } else {
        BlanksShape(s[1..]);
        Prepended(s[0], Blanks(s[1..]));
      }
    }
  }

  lemma Prepended(c: char, s: string)
    requires SingleSpaced(s) && (IsSpace(c) ==> c == ' ' && (s != "" ==> !IsSpace(s[0])))
    ensures SingleSpaced([c] + s)
  {
  }

  lemma {:induction false} BlanksSame(s: string)
    requires SingleSpaced(s)
    ensures Blanks(s) == s
    decreases |s|
  {
    if s != "" {
      assert forall i | 0 <= i < |s| - 1 :: s[1..][i] == s[i + 1];
      BlanksSame(s[1..]);
      TrimLeftSpec(s[1..]);
    }
  }

  // Normalisation leaves exactly the trimmed, single-spaced texts alone.
  lemma NormalisedExact(s: string)
    ensures Normalised(s) == s <==> Trimmed(s) && SingleSpaced(s)
  {
    TrimExact(s);
    BlanksShape(Trim(s));
    if SingleSpaced(Trim(s)) { BlanksSame(Trim(s)); }
  }

  lemma {:induction false} TrimLeftSplits(s: string) returns (before: string)
    ensures s == before + TrimLeft(s) && Spaces(before)
  {
    if s != "" && IsSpace(s[0]) {
      var rest := TrimLeftSplits(s[1..]);
      before := [s[0]] + rest;
    } else {
      before := "";
    }
  }

  lemma {:induction false} TextEndSplits(s: string)
    ensures Spaces(s[TextEnd(s)..])
  {
    if s != "" && IsSpace(s[|s| - 1]) {
      TextEndSplits(s[..|s| - 1]);
      assert s[TextEnd(s)..] == s[..|s| - 1][TextEnd(s)..] + [s[|s| - 1]];
    }
  }

  lemma TrimRightSplits(s: string) returns (behind: string)
    ensures s == TrimRight(s) + behind && Spaces(behind)
  {
    TextEndSplits(s);
    behind := s[TextEnd(s)..];
  }

  // Trimming takes away white space at the two ends and nothing else.
  lemma TrimSplits(s: string) returns (before: string, behind: string)
    ensures s == before + Trim(s) + behind && Spaces(before) && Spaces(behind) && Trimmed(Trim(s))
  {
    before := TrimLeftSplits(s);
    behind := TrimRightSplits(TrimLeft(s));
    Associates(before, Trim(s), behind);
    TrimExact(s);
  }

  lemma Associates(a: string, b: string, c: string)
    ensures a + (b + c) == a + b + c
  {
  }

  lemma TrimBlank(s: string)
    ensures Trim(s) == "" <==> Spaces(s)
  {
    var before, behind := TrimSplits(s);
    if Trim(s) != "" { assert Trim(s)[0] in s && !IsSpace(Trim(s)[0]); }
  }

  predicate NotSpace(c: char) {
    !IsSpace(c)
  }

  lemma {:induction false} RunsOfSpaces(s: string, spaces: string)
    requires Spaces(spaces)
    ensures Runs(spaces + s, NotSpace) == Runs(s, NotSpace)
  {
    if spaces == "" {
      assert spaces + s == s;
    } else {
      assert (spaces + s)[1..] == spaces[1..] + s && (spaces + s)[0] == spaces[0];
      RunsOfSpaces(s, spaces[1..]);
    }
  }

  lemma {:induction false} RunEndSpaces(s: string, spaces: string)
    requires Spaces(spaces)
    ensures RunEnd(s + spaces, NotSpace) == RunEnd(s, NotSpace)
  {
    if s == "" {
      assert s + spaces == spaces;
    } else if NotSpace(s[0]) {
      assert (s + spaces)[1..] == s[1..] + spaces;
      RunEndSpaces(s[1..], spaces);
    }
  }

  lemma {:induction false} RunsBeforeSpaces(s: string, spaces: string)
    requires Spaces(spaces)
    ensures Runs(s + spaces, NotSpace) == Runs(s, NotSpace)
    decreases |s|
  {
    if s == "" {
      RunsOfSpaces("", spaces);
      assert s + spaces == spaces + "";
    } else if IsSpace(s[0]) {
      assert (s + spaces)[1..] == s[1..] + spaces;
      RunsBeforeSpaces(s[1..], spaces);
    } else {
      var n := RunEnd(s, NotSpace);
      RunEndSpaces(s, spaces);
      Cut(s, spaces, n);
      RunsBeforeSpaces(s[n..], spaces);
    }
  }

  lemma {:induction false} BlanksRun(s: string)
    ensures Blanks(s) == s[..RunEnd(s, NotSpace)] + Blanks(s[RunEnd(s, NotSpace)..])
  {
    if s != "" && NotSpace(s[0]) {
      BlanksRun(s[1..]);
      assert s[RunEnd(s, NotSpace)..] == s[1..][RunEnd(s[1..], NotSpace)..];
    }
  }

  // Inside a trimmed text, white space is followed by another word.
  lemma NextWord(s: string, n: nat) returns (before: string)
    requires Trimmed(s) && n < |s| && IsSpace(s[n])
    ensures var next := TrimLeft(s[n + 1..]);
      && next != "" && Trimmed(next) && Spaces([s[n]] + before) && s[n..] == [s[n]] + before + next
  {
    before := TrimLeftSplits(s[n + 1..]);
    var next := TrimLeft(s[n + 1..]);
    TrimLeftSpec(s[n + 1..]);
    var tail := [s[n]] + before + next;
    assert s[n..] == tail && s[|s| - 1] == tail[|tail| - 1];
  }

  lemma BlanksNext(s: string, n: nat)
    requires n < |s| && IsSpace(s[n])
    ensures Blanks(s[n..]) == [' '] + Blanks(TrimLeft(s[n + 1..]))
  {
    assert s[n..][1..] == s[n + 1..];
  }

  lemma BlanksFirst(s: string, n: nat)
    requires n == RunEnd(s, NotSpace) < |s|
    ensures Blanks(s) == s[..n] + [' '] + Blanks(TrimLeft(s[n + 1..]))
  {
    BlanksRun(s);
    BlanksNext(s, n);
  }

  lemma RunsFirst(s: string, n: nat, before: string, next: string)
    requires s != "" && NotSpace(s[0]) && n == RunEnd(s, NotSpace) < |s|
    requires Spaces([s[n]] + before) && s[n..] == [s[n]] + before + next
    ensures Runs(s, NotSpace) == [s[..n]] + Runs(next, NotSpace)
  {
    RunFirst(s, NotSpace);
    RunsOfSpaces(next, [s[n]] + before);
  }

  lemma {:induction false} BlanksWords(s: string)
    requires s != "" && Trimmed(s)
    ensures Runs(s, NotSpace) != [] && Blanks(s) == Joined(Runs(s, NotSpace), ' ')
    decreases |s|
  {
    var n := RunEnd(s, NotSpace);
    if n < |s| {
      var before := NextWord(s, n);
      var next := TrimLeft(s[n + 1..]);
      BlanksFirst(s, n);
      RunsFirst(s, n, before, next);
      BlanksWords(next);
      FirstWord(s[..n], Runs(next, NotSpace));
    } else {
      BlanksRun(s);
      RunFirst(s, NotSpace);
    }
  }

  lemma FirstWord(word: string, words: seq<string>)
    requires words != []
    ensures Joined([word] + words, ' ') == word + [' '] + Joined(words, ' ')
  {
    assert ([word] + words)[1..] == words;
  }

  lemma SameWords(before: string, text: string, behind: string)
    requires Spaces(before) && Spaces(behind)
    ensures Runs(before + text + behind, NotSpace) == Runs(text, NotSpace)
  {
    assert before + text + behind == before + (text + behind);
    RunsOfSpaces(text + behind, before);
    RunsBeforeSpaces(text, behind);
  }

  // Normalisation keeps the words of a text, a single blank between each two.
  lemma NormalisedIsItsWords(s: string)
    ensures Normalised(s) == Joined(Runs(s, NotSpace), ' ')
  {
    var before, behind := TrimSplits(s);
    SameWords(before, Trim(s), behind);
    if Trim(s) != "" { BlanksWords(Trim(s)); }
  }

  // ---------------------------------------------------------------------------------------------
  // Rows
  // ---------------------------------------------------------------------------------------------

  datatype Row = Row(key: string, name: string, value: string, number: Option<string>, unit: Option<string>)

  const EMPTY := Row("", "", "", None, None)
  const MAX_ROWS: nat := 50

  predicate IsEmpty(row: Row) {
    Trim(row.name) == "" && Trim(row.value) == ""
  }

  // A row is empty exactly if its name and value hold nothing but white space; any other is kept.
  lemma EmptyExactly(row: Row)
    ensures IsEmpty(row) <==> Spaces(row.name) && Spaces(row.value)
  {
    TrimBlank(row.name);
    TrimBlank(row.value);
  }

  function Filled(rows: seq<Row>): (r: seq<Row>)
    ensures |r| <= |rows| && (forall row <- r :: row in rows && !IsEmpty(row))
  {
    if rows == [] then []
    else if IsEmpty(rows[0]) then Filled(rows[1..])
    else [rows[0]] + Filled(rows[1..])
  }

  function WithTrailing(rows: seq<Row>): seq<Row> {
    var filled := Filled(rows);
    if |filled| < MAX_ROWS then filled + [EMPTY] else filled[..MAX_ROWS]
  }

  // Filled rows and then one blank, or exactly as many filled rows as fit.
  predicate Tidy(rows: seq<Row>) {
    || (1 <= |rows| <= MAX_ROWS && rows[|rows| - 1] == EMPTY && forall row <- rows[..|rows| - 1] :: !IsEmpty(row))
    || (|rows| == MAX_ROWS && forall row <- rows :: !IsEmpty(row))
  }

  lemma {:induction false} FilledAll(rows: seq<Row>)
    requires forall row <- rows :: !IsEmpty(row)
    ensures Filled(rows) == rows
  {
    if rows != [] { FilledAll(rows[1..]); }
  }

  lemma {:induction false} FilledConcat(a: seq<Row>, b: seq<Row>)
    ensures Filled(a + b) == Filled(a) + Filled(b)
  {
    if a == [] {
      assert a + b == b;
    } else {
      assert (a + b)[1..] == a[1..] + b;
      FilledConcat(a[1..], b);
    }
  }

  lemma BlankLast(front: seq<Row>)
    requires |front| < MAX_ROWS && forall row <- front :: !IsEmpty(row)
    ensures Filled(front + [EMPTY]) == front && WithTrailing(front + [EMPTY]) == front + [EMPTY]
  {
    FilledConcat(front, [EMPTY]);
    FilledAll(front);
  }

  lemma TidyStays(rows: seq<Row>)
    requires Tidy(rows)
    ensures WithTrailing(rows) == rows
  {
    if |rows| == MAX_ROWS && forall row <- rows :: !IsEmpty(row) {
      FilledAll(rows);
    } else {
      assert rows == rows[..|rows| - 1] + [EMPTY];
      BlankLast(rows[..|rows| - 1]);
    }
  }

  // The result is tidy, and tidy tables are exactly those left as they are.
  lemma TrailingExact(rows: seq<Row>)
    ensures Tidy(WithTrailing(rows)) && WithTrailing(WithTrailing(rows)) == WithTrailing(rows)
    ensures WithTrailing(rows) == rows <==> Tidy(rows)
  {
    var result := WithTrailing(rows);
    assert |Filled(rows)| < MAX_ROWS ==> result[..|result| - 1] == Filled(rows);
    TidyStays(result);
    if Tidy(rows) { TidyStays(rows); }
  }

  // ---------------------------------------------------------------------------------------------
  // Pasting
  // ---------------------------------------------------------------------------------------------

  datatype Pasted = Pasted(name: string, value: string)

  function Added(pasted: seq<Pasted>): (r: seq<Row>)
    ensures |r| == |pasted|
    ensures forall i | 0 <= i < |r| :: r[i] == EMPTY.(name := pasted[i].name, value := pasted[i].value)
  {
    seq(|pasted|, i requires 0 <= i < |pasted| => EMPTY.(name := pasted[i].name, value := pasted[i].value))
  }

  // Where the pasted rows go among the filled ones: after the row pasted into if it holds something,
  // in its place if not, at the end from beyond the table.
  function PasteAt(rows: seq<Row>, index: nat): nat {
    var before := |Filled(rows[..if index <= |rows| then index else |rows|])|;
    if index < |rows| && !IsEmpty(rows[index]) then before + 1 else before
  }

  function Room(rows: seq<Row>, pasted: nat): nat {
    var capacity := if |Filled(rows)| < MAX_ROWS then MAX_ROWS - |Filled(rows)| else 0;
    if pasted < capacity then pasted else capacity
  }

  lemma Halves(whole: seq<Row>, a: seq<Row>, b: seq<Row>, at: nat)
    requires whole == a + b && at == |a|
    ensures at <= |whole| && whole[..at] == a && whole[at..] == b
  {
  }

  lemma FilledSplits(rows: seq<Row>, n: nat)
    requires n <= |rows|
    ensures Filled(rows) == Filled(rows[..n]) + Filled(rows[n..])
  {
    assert rows == rows[..n] + rows[n..];
    FilledConcat(rows[..n], rows[n..]);
  }

  lemma PasteAtInside(rows: seq<Row>, index: nat)
    ensures PasteAt(rows, index) <= |Filled(rows)|
    ensures index <= |rows| ==> Filled(rows[..index]) <= Filled(rows)
    ensures index < |rows| && !IsEmpty(rows[index]) ==>
              PasteAt(rows, index) > 0 && Filled(rows)[PasteAt(rows, index) - 1] == rows[index]
    ensures index < |rows| && IsEmpty(rows[index]) ==> Filled(rows)[..PasteAt(rows, index)] == Filled(rows[..index])
    ensures index >= |rows| ==> PasteAt(rows, index) == |Filled(rows)|
  {
    if index < |rows| {
      FilledSplits(rows, index);
      Halves(Filled(rows), Filled(rows[..index]), Filled(rows[index..]), |Filled(rows[..index])|);
      assert rows[index..][0] == rows[index];
    } else {
      assert rows[..|rows|] == rows;
    }
  }

  // The rows before the place: those up to the row pasted into, with it if it holds something.
  function Above(rows: seq<Row>, index: nat): nat
    ensures Above(rows, index) <= |rows|
  {
    if index >= |rows| then |rows| else if IsEmpty(rows[index]) then index else index + 1
  }

  lemma PlaceCounts(rows: seq<Row>, index: nat)
    ensures PasteAt(rows, index) == |Filled(rows[..Above(rows, index)])|
  {
    if index < |rows| && !IsEmpty(rows[index]) {
      assert rows[..index + 1] == rows[..index] + [rows[index]];
      FilledConcat(rows[..index], [rows[index]]);
    }
  }

  lemma PlaceSplits(rows: seq<Row>, index: nat)
    ensures PasteAt(rows, index) <= |Filled(rows)|
    ensures Filled(rows)[..PasteAt(rows, index)] == Filled(rows[..Above(rows, index)])
    ensures Filled(rows)[PasteAt(rows, index)..] == Filled(rows[Above(rows, index)..])
  {
    var above := Above(rows, index);
    PlaceCounts(rows, index);
    FilledSplits(rows, above);
    Halves(Filled(rows), Filled(rows[..above]), Filled(rows[above..]), PasteAt(rows, index));
  }

  function Merged(rows: seq<Row>, index: nat, pasted: seq<Pasted>): seq<Row> {
    PasteAtInside(rows, index);
    var at := PasteAt(rows, index);
    Filled(rows)[..at] + Added(pasted[..Room(rows, |pasted|)]) + Filled(rows)[at..]
  }

  method InsertPasted(rows: seq<Row>, index: nat, pasted: seq<Pasted>) returns (result: seq<Row>)
    ensures result == WithTrailing(Merged(rows, index, pasted))
    ensures |Filled(rows)| <= MAX_ROWS && (forall p <- pasted :: Trim(p.name) != "") ==>
              Filled(result) == Filled(rows[..Above(rows, index)]) + Added(pasted[..Room(rows, |pasted|)])
                                + Filled(rows[Above(rows, index)..])
  {
    if |Filled(rows)| <= MAX_ROWS && forall p <- pasted :: Trim(p.name) != "" { PastePlace(rows, index, pasted); }
    var meaningful := Filled(rows);
    var populatedBefore := |Filled(rows[..if index <= |rows| then index else |rows|])|;
    var insertAt := if index >= |rows| || IsEmpty(rows[index]) then populatedBefore else populatedBefore + 1;
    var capacity: nat := if |meaningful| < MAX_ROWS then MAX_ROWS - |meaningful| else 0;
    var additions := Added(pasted[..if |pasted| < capacity then |pasted| else capacity]);
    PasteAtInside(rows, index);
    assert insertAt == PasteAt(rows, index) && additions == Added(pasted[..Room(rows, |pasted|)]);
    meaningful := meaningful[..insertAt] + additions + meaningful[insertAt..];
    result := WithTrailing(meaningful);
  }

  predicate NoneEmpty(rows: seq<Row>) {
    forall row <- rows :: !IsEmpty(row)
  }

  lemma AddedFilled(pasted: seq<Pasted>)
    requires forall p <- pasted :: Trim(p.name) != ""
    ensures NoneEmpty(Added(pasted))
  {
    forall i | 0 <= i < |pasted| ensures !IsEmpty(Added(pasted)[i]) {
      assert pasted[i] in pasted;
    }
  }

  lemma SplicedFilled(rows: seq<Row>, at: nat, added: seq<Row>)
    requires at <= |rows| && NoneEmpty(rows) && NoneEmpty(added)
    ensures NoneEmpty(rows[..at] + added + rows[at..])
  {
  }

  lemma MergedFits(rows: seq<Row>, index: nat, pasted: seq<Pasted>)
    requires |Filled(rows)| <= MAX_ROWS && forall p <- pasted :: Trim(p.name) != ""
    ensures |Merged(rows, index, pasted)| == |Filled(rows)| + Room(rows, |pasted|) <= MAX_ROWS
    ensures NoneEmpty(Merged(rows, index, pasted))
  {
    PasteAtInside(rows, index);
    var some := pasted[..Room(rows, |pasted|)];
    AddedFilled(some);
    SplicedFilled(Filled(rows), PasteAt(rows, index), Added(some));
  }

  lemma FilledAfter(rows: seq<Row>)
    requires |rows| <= MAX_ROWS && forall row <- rows :: !IsEmpty(row)
    ensures Filled(WithTrailing(rows)) == rows
  {
    FilledAll(rows);
    if |rows| < MAX_ROWS { BlankLast(rows); } else { assert rows[..MAX_ROWS] == rows; }
  }

  lemma Spliced<T>(s: seq<T>, at: nat, added: seq<T>)
    requires at <= |s|
    ensures var r := s[..at] + added + s[at..];
            r[..at] + r[at + |added|..] == s && r[at..at + |added|] == added
  {
  }

  // From at most fifty filled rows and rows the paste parser returned, all existing rows stay, in
  // order; a prefix of the pasted ones stands contiguously at the place; only what exceeds fifty is
  // dropped; and the table is tidy.
  lemma PasteKeepsRows(rows: seq<Row>, index: nat, pasted: seq<Pasted>)
    requires |Filled(rows)| <= MAX_ROWS && forall p <- pasted :: Trim(p.name) != ""
    ensures var at, n := PasteAt(rows, index), Room(rows, |pasted|);
            var filled := Filled(WithTrailing(Merged(rows, index, pasted)));
      && at <= |Filled(rows)| && n <= |pasted|
      && |filled| == |Filled(rows)| + n && (n == |pasted| || |filled| == MAX_ROWS)
      && filled[..at] + filled[at + n..] == Filled(rows) && filled[at..at + n] == Added(pasted[..n])
    ensures Tidy(WithTrailing(Merged(rows, index, pasted)))
  {
    PasteAtInside(rows, index);
    MergedFits(rows, index, pasted);
    FilledAfter(Merged(rows, index, pasted));
    Spliced(Filled(rows), PasteAt(rows, index), Added(pasted[..Room(rows, |pasted|)]));
    TrailingExact(Merged(rows, index, pasted));
  }

  // So the filled rows of those above the row pasted into come first, with that row itself if it holds
  // something; then the pasted ones; then the filled rows of the rest.
  lemma PastePlace(rows: seq<Row>, index: nat, pasted: seq<Pasted>)
    requires |Filled(rows)| <= MAX_ROWS && forall p <- pasted :: Trim(p.name) != ""
    ensures Filled(WithTrailing(Merged(rows, index, pasted))) ==
            Filled(rows[..Above(rows, index)]) + Added(pasted[..Room(rows, |pasted|)])
            + Filled(rows[Above(rows, index)..])
  {
    PlaceSplits(rows, index);
    MergedFits(rows, index, pasted);
    FilledAfter(Merged(rows, index, pasted));
  }

  // ---------------------------------------------------------------------------------------------
  // What is sent
  // ---------------------------------------------------------------------------------------------

  predicate SameText(a: Row, b: Row) {
    a.key == b.key && a.name == b.name && a.value == b.value
  }

  function Unchanged(row: Row, originals: seq<Row>): (r: Option<Row>)
    ensures r.Some? ==> r.value in originals && SameText(r.value, row) && row.key != ""
    ensures r.None? ==> row.key == "" || forall original <- originals :: !SameText(original, row)
  {
    if originals == [] then None
    else if row.key != "" && SameText(originals[0], row) then Some(originals[0])
    else Unchanged(row, originals[1..])
  }

  // An untouched row keeps the numeric metadata it was loaded with; any other is read again.
  function Input(letter: char -> bool, key: string -> string, row: Row, originals: seq<Row>): Row {
    var name, value := Trim(row.name), Normalised(row.value);
    match Unchanged(row, originals)
    case Some(original) => Row(original.key, name, value, original.number, original.unit)
    case None =>
      var given := if Trim(row.key) != "" then Trim(row.key) else key(name);
      match Metadata(letter, value)
      case None => Row(given, name, value, None, None)
      case Some((number, unit)) => Row(given, name, value, Some(number.Text()), Some(unit))
  }

  // A row that is no longer as it was loaded is read again: its name trimmed, its value normalised, its own
  // key or else one made from its name, and a number and unit exactly if the value reads as such.
  lemma InputIsReadAgain(letter: char -> bool, key: string -> string, row: Row, originals: seq<Row>)
    requires SpecificationNumbers.Letters(letter)
    requires row.key == "" || forall original <- originals :: !SameText(original, row)
    ensures var sent := Input(letter, key, row, originals);
      && sent.name == Trim(row.name) && sent.value == Normalised(row.value)
      && sent.key == (if Trim(row.key) != "" then Trim(row.key) else key(sent.name))
      && (sent.number.Some? || sent.unit.Some? ==>
            exists n: Number, unit :: ReadsAs(letter, sent.value, n, unit)
                                      && sent.number == Some(n.Text()) && sent.unit == Some(unit))
      && (forall n, unit | ReadsAs(letter, sent.value, n, unit) ::
            sent.number == Some(n.Text()) && sent.unit == Some(unit))
  {
    var value := Normalised(row.value);
    forall n, unit ensures Metadata(letter, value) == Some((n, unit)) <==> ReadsAs(letter, value, n, unit) {
      MetadataExact(letter, value, n, unit);
    }
    if Metadata(letter, value).Some? {
      var (n, unit) := Metadata(letter, value).value;
      assert ReadsAs(letter, value, n, unit);
    }
  }

  function Inputs(letter: char -> bool, key: string -> string, rows: seq<Row>, originals: seq<Row>): seq<Row> {
    Mapped(Filled(rows), (row: Row) => Input(letter, key, row, originals))
  }

  // The keys that occur at two places.
  method DuplicateKeys(inputs: seq<Row>) returns (duplicates: set<string>)
    ensures forall key :: key in duplicates <==>
              exists i, j :: 0 <= i < j < |inputs| && inputs[i].key == key == inputs[j].key
  {
    var seen: set<string> := {};
    duplicates := {};
    for n := 0 to |inputs|
      invariant forall key :: key in seen <==> exists i :: 0 <= i < n && inputs[i].key == key
      invariant forall key :: key in duplicates <==>
                  exists i, j :: 0 <= i < j < n && inputs[i].key == key == inputs[j].key
    {
      var key := inputs[n].key;
      if key in seen { duplicates := duplicates + {key}; }
      seen := seen + {key};
    }
  }

  // A row whose texts normalisation leaves alone.
  predicate Settled(row: Row) {
    !IsEmpty(row) && Trimmed(row.name) && Trimmed(row.value) && SingleSpaced(row.value)
  }

  ghost predicate DistinctKeys(rows: seq<Row>) {
    (forall row <- rows :: row.key != "") && forall i, j | 0 <= i < j < |rows| :: rows[i].key != rows[j].key
  }

  lemma OwnInput(letter: char -> bool, key: string -> string, row: Row, originals: seq<Row>)
    requires row in originals && DistinctKeys(originals)
    ensures Input(letter, key, row, originals) == row.(name := Trim(row.name), value := Normalised(row.value))
  {
  }

  lemma {:induction false} FilledLength(rows: seq<Row>)
    ensures |Filled(rows)| == |rows| <==> forall row <- rows :: !IsEmpty(row)
  {
    if rows != [] { FilledLength(rows[1..]); }
  }

  // The filled rows stay, in order; only what exceeds fifty is dropped, from the end.
  lemma TrailingFilled(rows: seq<Row>)
    ensures Filled(WithTrailing(rows)) <= Filled(rows)
    ensures |Filled(WithTrailing(rows))| == if |Filled(rows)| <= MAX_ROWS then |Filled(rows)| else MAX_ROWS
  {
    var filled := Filled(rows);
    if |filled| < MAX_ROWS {
      BlankLast(filled);
    } else {
      FilledAll(filled[..MAX_ROWS]);
    }
  }

  predicate Loadable(rows: seq<Row>) {
    |rows| <= MAX_ROWS && forall row <- rows :: Settled(row)
  }

  lemma SettledRow(row: Row)
    ensures row.(name := Trim(row.name), value := Normalised(row.value)) == row
            <==> Trimmed(row.name) && Trimmed(row.value) && SingleSpaced(row.value)
  {
    TrimExact(row.name);
    NormalisedExact(row.value);
  }

  // Loading a card's rows and sending them back untouched gives the same rows, stored numbers and
  // units included, exactly when there are at most fifty, none blank, all with normalised texts.
  lemma RowsRoundTrip(letter: char -> bool, key: string -> string, rows: seq<Row>)
    requires DistinctKeys(rows)
    ensures Inputs(letter, key, WithTrailing(rows), rows) == rows <==> Loadable(rows)
  {
    var sent := Inputs(letter, key, WithTrailing(rows), rows);
    TrailingFilled(rows);
    FilledLength(rows);
    if |rows| <= MAX_ROWS && |Filled(rows)| == |rows| {
      FilledAll(rows);
      forall i | 0 <= i < |rows| ensures sent[i] == rows[i] <==> Settled(rows[i]) {
        OwnInput(letter, key, rows[i], rows);
        SettledRow(rows[i]);
      }
    }
  }
}
