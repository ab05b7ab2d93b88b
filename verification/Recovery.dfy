/**
 The bounded crash store: at most eight editor drafts in the browser's local storage, which other
 parts of the application share.
 */
module Recovery {
  import opened Prelude
  import opened Client

  const RECOVERY_PREFIX := "ackb:editor:v1:"
  const MAX_BYTES: nat := 512_000
  const MAX_ENTRIES: nat := 8
  const TTL: int := 7 * 24 * 60 * 60 * 1000
  const CLOCK_SKEW: int := 60_000
  const MAX_SAFE_INTEGER: nat := 0x1F_FFFF_FFFF_FFFF

  datatype Record = Record(version: nat, savedAt: int, draft: Draft)

  // A stored string: its length, and the record it parses to, if it does.
  datatype Item = Item(size: nat, parsed: Option<Record>)

  type Items = map<string, Item>

  predicate IsEditorKey(key: string) {
    RECOVERY_PREFIX <= key
  }

  predicate IsKeyChar(c: char) {
    '0' <= c <= '9' || 'a' <= c <= 'f' || 'A' <= c <= 'F' || c == '-'
  }

  predicate WellFormed(draft: Draft, valid: Document -> bool) {
    && |draft.creationKey| == 36 && (forall c | c in draft.creationKey :: IsKeyChar(c))
    && (draft.token.Some? ==> 1 <= draft.token.value <= MAX_SAFE_INTEGER)
    && valid(draft.state)
  }

  predicate Timely(savedAt: int, now: int) {
    savedAt <= now + CLOCK_SKEW && now - savedAt <= TTL
  }

  function Read(items: Items, key: string, now: int, valid: Document -> bool): Option<Draft> {
    if key !in items || items[key].size == 0 || items[key].size > MAX_BYTES || items[key].parsed.None? then None
    else
      var record := items[key].parsed.value;
      if record.version == 1 && Timely(record.savedAt, now) && WellFormed(record.draft, valid)
      then Some(record.draft) else None
  }

  // How `Object.keys` may list the storage: every key once, in some order.
  ghost predicate Lists(order: seq<string>, items: Items) {
    && (forall key :: key in order <==> key in items)
    && (forall i, j | 0 <= i < j < |order| :: order[i] != order[j])
  }

  function Others(order: seq<string>, key: string): (others: seq<string>)
    ensures forall k :: k in others <==> k in order && IsEditorKey(k) && k != key
    ensures |others| <= |order|
  {
    if order == [] then []
    else
      var rest := Others(order[1..], key);
      if IsEditorKey(order[0]) && order[0] != key then [order[0]] + rest else rest
  }

  // The oldest entries a write removes: as many as leave at most seven others.
  function Victims(others: seq<string>): seq<string> {
    if |others| >= MAX_ENTRIES then others[..|others| - (MAX_ENTRIES - 1)] else []
  }

  function Without(items: Items, gone: seq<string>): Items {
    map k | k in items && k !in gone :: items[k]
  }

  // A write that `fits` succeeds; one that does not may still have evicted.
  function Written(items: Items, order: seq<string>, key: string, item: Item, fits: bool): (Items, bool) {
    if item.size > MAX_BYTES then (items, false)
    else
      var kept := Without(items, Victims(Others(order, key)));
      if fits then (kept[key := item], true) else (kept, false)
  }

  function Cleared(items: Items): Items {
    map k | k in items && !IsEditorKey(k) :: items[k]
  }

  class LocalStorage {
    var items: Items

    constructor (items: Items)
      ensures this.items == items
    {
      this.items := items;
    }

    method ReadRecovery(key: string, now: int, valid: Document -> bool) returns (found: Option<Draft>)
      ensures found == Read(items, key, now, valid)
    {
      if key !in items {
        return None;
      }
      var item := items[key];
      if item.size == 0 || item.size > MAX_BYTES || item.parsed.None? {
        return None;
      }
      var record := item.parsed.value;
      if record.version != 1 || record.savedAt > now + CLOCK_SKEW || now - record.savedAt > TTL
         || !WellFormed(record.draft, valid) {
        return None;
      }
      return Some(record.draft);
    }

    method WriteRecovery(key: string, item: Item, order: seq<string>, fits: bool) returns (written: bool)
      requires Lists(order, items)
      modifies this
      ensures (items, written) == Written(old(items), order, key, item, fits)
    {
      if item.size > MAX_BYTES {
        return false;
      }
      var keys := Others(order, key);
      ghost var n := 0;
      while |keys| >= MAX_ENTRIES
        invariant 0 <= n <= |Others(order, key)| && keys == Others(order, key)[n..]
        invariant n > 0 ==> |keys| >= MAX_ENTRIES - 1
        invariant items == Without(old(items), Others(order, key)[..n])
      {
        var oldest := keys[0];
        assert Others(order, key)[..n + 1] == Others(order, key)[..n] + [oldest];
        keys := keys[1..];
        items := map k | k in items && k != oldest :: items[k];
        n := n + 1;
      }
      assert Others(order, key)[..n] == Victims(Others(order, key));
      if fits {
        items := items[key := item];
      }
      return fits;
    }

    method RemoveRecovery(key: string)
      modifies this
      ensures items == old(items) - {key}
    {
      items := items - {key};
    }

    method ClearEditorRecovery(order: seq<string>)
      requires Lists(order, items)
      modifies this
      ensures items == Cleared(old(items))
      ensures forall k :: k in items <==> k in old(items) && !(RECOVERY_PREFIX <= k)
      ensures forall k | k in items :: items[k] == old(items)[k]
    {
      for i := 0 to |order|
        invariant forall k | k in items :: k in old(items) && items[k] == old(items)[k]
        invariant forall k | k in old(items) :: k in items <==> !(IsEditorKey(k) && k in order[..i])
      {
        if IsEditorKey(order[i]) {
          items := items - {order[i]};
        }
      }
    }
  }

  // ---------------------------------------------------------------------------------------------
  // What any use of the store keeps
  // ---------------------------------------------------------------------------------------------

  ghost function EditorKeys(items: Items): set<string> {
    set k | k in items && IsEditorKey(k)
  }

  datatype Use =
    | ReadUse
    | WriteUse(key: string, item: Item, order: seq<string>, fits: bool)
    | RemoveUse(key: string)
    | ClearUse

  function After(items: Items, use: Use): Items {
    match use
    case ReadUse => items
    case WriteUse(key, item, order, fits) => Written(items, order, key, item, fits).0
    case RemoveUse(key) => items - {key}
    case ClearUse => Cleared(items)
  }

  ghost predicate CanUse(items: Items, use: Use) {
    match use
    case WriteUse(key, _, order, _) => IsEditorKey(key) && Lists(order, items)
    case RemoveUse(key) => IsEditorKey(key)
    case _ => true
  }

  ghost predicate SameElsewhere(items: Items, later: Items) {
    forall k | !IsEditorKey(k) :: (k in later <==> k in items) && (k in items ==> later[k] == items[k])
  }

  lemma {:induction false} SetOfSeq(s: seq<string>)
    ensures |set k | k in s| <= |s|
  {
    if s == [] {
      assert (set k | k in s) == {};
    } else {
      SetOfSeq(s[1..]);
      assert (set k | k in s) == {s[0]} + set k | k in s[1..];
    }
  }

  // A successful write leaves at most eight editor entries, however many there were.
  lemma WriteBounds(items: Items, order: seq<string>, key: string, item: Item)
    requires Lists(order, items) && IsEditorKey(key) && item.size <= MAX_BYTES
    ensures |EditorKeys(Written(items, order, key, item, true).0)| <= MAX_ENTRIES
  {
    var others := Others(order, key);
    var n := |Victims(others)|;
    var later := Written(items, order, key, item, true).0;
    assert others == others[..n] + others[n..];
    SetOfSeq(others[n..]);
    var kept := set k | k in others[n..];
    assert EditorKeys(later) <= kept + {key};
    SubsetSize(EditorKeys(later), kept + {key});
  }

  lemma UseKeeps(items: Items, use: Use)
    requires CanUse(items, use) && |EditorKeys(items)| <= MAX_ENTRIES
    ensures |EditorKeys(After(items, use))| <= MAX_ENTRIES && SameElsewhere(items, After(items, use))
  {
    if use.WriteUse? && use.fits && use.item.size <= MAX_BYTES {
      WriteBounds(items, use.order, use.key, use.item);
    } else {
      SubsetSize(EditorKeys(After(items, use)), EditorKeys(items));
    }
  }

  // Over any sequence of reads, writes (failing ones included), removals and clears, at most
  // eight editor entries stay, and no other key of the storage changes.
  lemma {:induction false} StoreStaysBounded(states: seq<Items>, uses: seq<Use>, i: nat)
    requires |states| == |uses| + 1 && |EditorKeys(states[0])| <= MAX_ENTRIES
    requires forall j | 0 <= j < |uses| :: CanUse(states[j], uses[j]) && states[j + 1] == After(states[j], uses[j])
    requires i < |states|
    ensures |EditorKeys(states[i])| <= MAX_ENTRIES && SameElsewhere(states[0], states[i])
  {
    if i > 0 {
      StoreStaysBounded(states, uses, i - 1);
      UseKeeps(states[i - 1], uses[i - 1]);
    }
  }

  // A draft that was written is read back, and stays readable until it expires, until something
  // touches its key.
  lemma WrittenIsReadBack(items: Items, order: seq<string>, key: string, draft: Draft, size: nat, fits: bool,
                          savedAt: int, now: int, valid: Document -> bool)
    requires Lists(order, items) && 0 < size
    ensures var (later, written) := Written(items, order, key, Item(size, Some(Record(1, savedAt, draft))), fits);
            && (written <==> size <= MAX_BYTES && fits)
            && (written ==>
                  (Read(later, key, now, valid) == Some(draft) <==> Timely(savedAt, now) && WellFormed(draft, valid)))
  {
  }

  // A use that leaves the key alone: it is not its own, and no write's eviction reaches it.
  predicate Spares(use: Use, key: string) {
    match use
    case ReadUse => true
    case WriteUse(other, item, order, _) =>
      item.size <= MAX_BYTES ==> other != key && key !in Victims(Others(order, other))
    case RemoveUse(other) => other != key
    case ClearUse => !IsEditorKey(key)
  }

  lemma {:induction false} SparedStays(states: seq<Items>, uses: seq<Use>, i: nat, key: string)
    requires |states| == |uses| + 1 && i < |states| && key in states[0]
    requires forall j | 0 <= j < |uses| :: CanUse(states[j], uses[j]) && states[j + 1] == After(states[j], uses[j])
    requires forall j | 0 <= j < i :: Spares(uses[j], key)
    ensures key in states[i] && states[i][key] == states[0][key]
  {
    if i > 0 { SparedStays(states, uses, i - 1, key); }
  }

  // A draft successfully written is read back after any sequence of uses that spare its key, exactly
  // while it is in time and valid.
  lemma SparedIsReadBack(items: Items, order: seq<string>, key: string, draft: Draft, size: nat, savedAt: int,
                         states: seq<Items>, uses: seq<Use>, i: nat, now: int, valid: Document -> bool)
    requires Lists(order, items) && 0 < size <= MAX_BYTES
    requires |states| == |uses| + 1 && i < |states|
    requires states[0] == Written(items, order, key, Item(size, Some(Record(1, savedAt, draft))), true).0
    requires forall j | 0 <= j < |uses| :: CanUse(states[j], uses[j]) && states[j + 1] == After(states[j], uses[j])
    requires forall j | 0 <= j < i :: Spares(uses[j], key)
    ensures Read(states[i], key, now, valid) == Some(draft) <==> Timely(savedAt, now) && WellFormed(draft, valid)
    ensures Read(states[i], key, now, valid) in {None, Some(draft)}
  {
    SparedStays(states, uses, i, key);
  }

  ghost predicate Distinct(s: seq<string>) {
    forall i, j | 0 <= i < j < |s| :: s[i] != s[j]
  }

  lemma {:induction false} OthersDistinct(order: seq<string>, key: string)
    requires Distinct(order)
    ensures Distinct(Others(order, key))
  {
    if order != [] { OthersDistinct(order[1..], key); }
  }

  lemma {:induction false} DistinctSize(s: seq<string>)
    requires Distinct(s)
    ensures |set k | k in s| == |s|
  {
    if s == [] {
      assert (set k | k in s) == {};
    } else {
      DistinctSize(s[1..]);
      assert (set k | k in s) == {s[0]} + set k | k in s[1..];
    }
  }

  lemma OthersAreEditorKeys(items: Items, order: seq<string>, key: string)
    requires Lists(order, items)
    ensures |Others(order, key)| == |EditorKeys(items) - {key}|
  {
    OthersDistinct(order, key);
    DistinctSize(Others(order, key));
    assert (set k | k in Others(order, key)) == EditorKeys(items) - {key};
  }

  lemma DistinctSplit(s: seq<string>, n: nat, k: string)
    requires Distinct(s) && n <= |s|
    ensures k in s[n..] <==> k in s && k !in s[..n]
  {
    assert s == s[..n] + s[n..];
    if k in s[..n] {
      var i :| 0 <= i < n && s[i] == k;
      forall j | n <= j < |s| ensures s[j] != k {
      }
    }
  }

  lemma SurvivorIs(items: Items, order: seq<string>, key: string, item: Item, fits: bool, k: string)
    requires Lists(order, items) && item.size <= MAX_BYTES
    ensures var others := Others(order, key);
            k in EditorKeys(Written(items, order, key, item, fits).0) - {key}
            <==> k in others && k !in Victims(others)
  {
  }

  lemma SurvivorsAre(items: Items, order: seq<string>, key: string, item: Item, fits: bool)
    requires Lists(order, items) && item.size <= MAX_BYTES
    ensures var others := Others(order, key);
            EditorKeys(Written(items, order, key, item, fits).0) - {key} == set k | k in others[|Victims(others)|..]
  {
    var others := Others(order, key);
    var n := |Victims(others)|;
    OthersDistinct(order, key);
    assert Victims(others) == others[..n];
    forall k
      ensures k in EditorKeys(Written(items, order, key, item, fits).0) - {key} <==> k in others[n..]
    {
      SurvivorIs(items, order, key, item, fits, k);
      DistinctSplit(others, n, k);
    }
  }

  // A write removes other editor entries only when there are at least eight of them, and then as
  // many as leave seven.
  lemma WriteLeavesSeven(items: Items, order: seq<string>, key: string, item: Item, fits: bool)
    requires Lists(order, items) && item.size <= MAX_BYTES
    ensures var others, later := |EditorKeys(items) - {key}|, Written(items, order, key, item, fits).0;
            |EditorKeys(later) - {key}| == if others >= 8 then 7 else others
  {
    OthersAreEditorKeys(items, order, key);
    SurvivorsAre(items, order, key, item, fits);
    OthersDistinct(order, key);
    DistinctSize(Others(order, key)[|Victims(Others(order, key))|..]);
  }

  // So below that number a write leaves every other entry of the storage as it was.
  lemma WriteSparesOthers(items: Items, order: seq<string>, key: string, item: Item, fits: bool, other: string)
    requires Lists(order, items) && other in items && other != key
    requires |EditorKeys(items) - {key}| < MAX_ENTRIES
    ensures var later := Written(items, order, key, item, fits).0; other in later && later[other] == items[other]
  {
    OthersAreEditorKeys(items, order, key);
  }

  lemma {:induction false} OthersConcat(a: seq<string>, b: seq<string>, key: string)
    ensures Others(a + b, key) == Others(a, key) + Others(b, key)
  {
    if a == [] {
      assert a + b == b;
    } else {
      assert (a + b)[1..] == a[1..] + b;
      OthersConcat(a[1..], b, key);
    }
  }

  // A prefix that reaches into the second part holds all of the first.
  lemma PrefixHolds(a: seq<string>, b: seq<string>, n: nat, x: string, y: string)
    requires Distinct(a + b) && n <= |a + b| && x in a && y in b && y in (a + b)[..n]
    ensures x in (a + b)[..n]
  {
    var k :| 0 <= k < n && (a + b)[k] == y;
    var j :| 0 <= j < |b| && b[j] == y;
    assert (a + b)[|a| + j] == y;
    var i :| 0 <= i < |a| && a[i] == x;
    assert (a + b)[..n][i] == x;
  }

  lemma OthersListed(order: seq<string>, key: string, i: nat, j: nat)
    requires i < j < |order| && order[i] != key && IsEditorKey(order[i]) && order[j] != key && IsEditorKey(order[j])
    ensures Others(order, key) == Others(order[..j], key) + Others(order[j..], key)
    ensures order[i] in Others(order[..j], key) && order[j] in Others(order[j..], key)
  {
    assert order == order[..j] + order[j..];
    OthersConcat(order[..j], order[j..], key);
    assert order[..j][i] == order[i] && order[j..][0] == order[j];
  }

  lemma VictimsListedFirst(order: seq<string>, key: string, i: nat, j: nat)
    requires Distinct(order) && i < j < |order| && order[i] != key && IsEditorKey(order[i])
    requires order[j] in Victims(Others(order, key))
    ensures order[i] in Victims(Others(order, key))
  {
    var others := Others(order, key);
    assert order[j] in others;
    OthersListed(order, key, i, j);
    OthersDistinct(order, key);
    PrefixHolds(Others(order[..j], key), Others(order[j..], key), |Victims(others)|, order[i], order[j]);
  }

  // What a write evicts stands first in the listing: wherever an entry is gone, so is every other editor
  // entry listed before it.
  lemma EvictsFirstListed(items: Items, order: seq<string>, key: string, item: Item, fits: bool, i: nat, j: nat)
    requires Lists(order, items) && i < j < |order| && order[i] != key && order[j] != key
    requires RECOVERY_PREFIX <= order[i] && order[j] in items
    ensures var later := Written(items, order, key, item, fits).0; order[j] !in later ==> order[i] !in later
  {
    if item.size <= MAX_BYTES && order[j] in Victims(Others(order, key)) { VictimsListedFirst(order, key, i, j); }
  }

  // An entry is read exactly if it is there, 1 to 512,000 characters long, of version 1, saved no more
  // than seven days ago and no more than a minute ahead, with a key and a token of the right form and a
  // document the form accepts; it is then its draft.
  lemma ReadExactly(items: Items, key: string, now: int, valid: Document -> bool, draft: Draft)
    ensures Read(items, key, now, valid) == Some(draft) <==>
      exists size: nat, savedAt ::
        && key in items && items[key] == Item(size, Some(Record(1, savedAt, draft))) && 1 <= size <= 512_000
        && now - 604_800_000 <= savedAt <= now + 60_000 && valid(draft.state)
        && |draft.creationKey| == 36
        && (forall c <- draft.creationKey :: '0' <= c <= '9' || 'a' <= c <= 'f' || 'A' <= c <= 'F' || c == '-')
        && (draft.token.Some? ==> 1 <= draft.token.value <= 0x1F_FFFF_FFFF_FFFF)
  {
    if Read(items, key, now, valid) == Some(draft) {
      assert items[key] == Item(items[key].size, Some(Record(1, items[key].parsed.value.savedAt, draft)));
    }
  }
}
