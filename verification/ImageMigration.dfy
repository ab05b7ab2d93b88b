/** The migration that first gives media assets a display order and one primary image. */
module ImageMigration {
  import opened Prelude

  datatype Kind = ImageKind | OtherKind(name: string)

  // Columns the migration adds are optional until it makes them NOT NULL.
  datatype Asset = Asset(
    id: nat, component: Option<nat>, kind: Kind, rejected: bool, created: int,
    order: Option<int>, primary: Option<bool>)

  ghost predicate DistinctIds(rows: seq<Asset>) {
    forall i, j | 0 <= i < j < |rows| :: rows[i].id != rows[j].id
  }

  // ORDER BY created_at, id.
  predicate Before(a: Asset, b: Asset) {
    a.created < b.created || (a.created == b.created && a.id < b.id)
  }

  predicate SamePartition(a: Asset, b: Asset) {
    a.component.Some? && a.component == b.component && a.kind == b.kind
  }

  function Partition(rows: seq<Asset>, asset: Asset): set<nat> {
    set i: nat | i < |rows| && SamePartition(rows[i], asset)
  }

  predicate Within(rows: seq<Asset>, group: set<nat>) {
    forall i <- group :: i < |rows|
  }

  // row_number() - 1 is the number of these: the rows of a group that come before.
  function Earlier(rows: seq<Asset>, group: set<nat>, asset: Asset): set<nat>
    requires Within(rows, group)
  {
    set i: nat | i in group && Before(rows[i], asset)
  }

  // ---------------------------------------------------------------------------------------------
  // The UPDATE statements
  // ---------------------------------------------------------------------------------------------

  function Numbered(rows: seq<Asset>, asset: Asset): Asset {
    if asset.component.None? then asset else asset.(order := Some(|Earlier(rows, Partition(rows, asset), asset)|))
  }

  function Defaulted(asset: Asset): Asset {
    if asset.order.None? then asset.(order := Some(0)) else asset
  }

  predicate Eligible(asset: Asset) {
    asset.component.Some? && asset.kind == ImageKind && !asset.rejected
  }

  // ORDER BY component_id, display_order, created_at, id, within one component.
  predicate Sooner(a: Asset, b: Asset) {
    var x, y := a.order.GetOr(0), b.order.GetOr(0);
    x < y || (x == y && Before(a, b))
  }

  // DISTINCT ON (component_id): the first eligible row of each component.
  predicate First(rows: seq<Asset>, asset: Asset) {
    && Eligible(asset)
    && forall other <- rows :: Eligible(other) && other.component == asset.component ==> !Sooner(other, asset)
  }

  function Marked(rows: seq<Asset>, asset: Asset): Asset {
    if First(rows, asset) then asset.(primary := Some(true)) else asset
  }

  // ---------------------------------------------------------------------------------------------
  // What it establishes
  // ---------------------------------------------------------------------------------------------

  predicate Kept(before: seq<Asset>, after: seq<Asset>) {
    |before| == |after| && forall i | 0 <= i < |before| ::
      after[i] == before[i].(order := after[i].order, primary := after[i].primary)
  }

  ghost predicate Holds(rows: seq<Asset>, asset: Asset, k: nat) {
    exists i :: 0 <= i < |rows| && SamePartition(rows[i], asset) && rows[i].order == Some(k)
  }

  // Inside each (component, kind), orders follow (created_at, id).
  ghost predicate OrdersFollow(rows: seq<Asset>) {
    forall i, j | 0 <= i < |rows| && 0 <= j < |rows| && SamePartition(rows[i], rows[j]) ::
      && rows[i].order.Some? && rows[j].order.Some? && 0 <= rows[i].order.value < |Partition(rows, rows[i])|
      && (Before(rows[i], rows[j]) <==> rows[i].order.value < rows[j].order.value)
  }

  // And they are 0 to n - 1 without gaps.
  ghost predicate OrdersFill(rows: seq<Asset>) {
    && OrdersFollow(rows)
    && (forall i, k: nat | 0 <= i < |rows| && rows[i].component.Some? && k < |Partition(rows, rows[i])| ::
          Holds(rows, rows[i], k))
  }

  predicate Earliest(rows: seq<Asset>, asset: Asset) {
    && Eligible(asset)
    && forall other <- rows :: Eligible(other) && other.component == asset.component ==> !Before(other, asset)
  }

  ghost predicate EarliestMarked(rows: seq<Asset>) {
    forall asset <- rows :: asset.primary == Some(true) <==> Earliest(rows, asset)
  }

  // The primary image of a component is its earliest one that was not rejected, and there is one
  // wherever there is such an image.
  ghost predicate OnePrimaryEach(rows: seq<Asset>) {
    && EarliestMarked(rows)
    && (forall asset <- rows :: Eligible(asset) ==>
          exists p <- rows :: p.component == asset.component && p.primary == Some(true))
  }

  // NOT NULL, the two checks, and the unique partial index.
  ghost predicate Constrained(rows: seq<Asset>) {
    && (forall asset <- rows :: asset.order.Some? && asset.primary.Some? && asset.order.value >= 0)
    && (forall asset <- rows :: asset.primary == Some(true) ==> asset.kind == ImageKind && asset.component.Some?)
    && (forall i, j | 0 <= i < j < |rows| ::
          !(rows[i].primary == Some(true) && rows[j].primary == Some(true) && rows[i].component == rows[j].component))
  }

  // ---------------------------------------------------------------------------------------------
  // Ranks
  // ---------------------------------------------------------------------------------------------

  lemma TotalOrder(rows: seq<Asset>, i: nat, j: nat)
    requires DistinctIds(rows) && i < |rows| && j < |rows| && i != j
    ensures Before(rows[i], rows[j]) <==> !Before(rows[j], rows[i])
  {
  }

  // A rank counts a proper part of the group, and grows along the order.
  lemma RankGrows(rows: seq<Asset>, group: set<nat>, i: nat, j: nat)
    requires Within(rows, group) && i in group && j in group && Before(rows[i], rows[j])
    ensures |Earlier(rows, group, rows[i])| < |Earlier(rows, group, rows[j])|
  {
    SubsetSize(Earlier(rows, group, rows[i]) + {i}, Earlier(rows, group, rows[j]));
  }

  lemma RankBelow(rows: seq<Asset>, group: set<nat>, i: nat)
    requires Within(rows, group) && i in group
    ensures |Earlier(rows, group, rows[i])| < |group|
  {
    SubsetSize(Earlier(rows, group, rows[i]) + {i}, group);
  }

  lemma RankExact(rows: seq<Asset>, group: set<nat>, i: nat, j: nat)
    requires DistinctIds(rows) && Within(rows, group) && i in group && j in group
    ensures Before(rows[i], rows[j]) <==> |Earlier(rows, group, rows[i])| < |Earlier(rows, group, rows[j])|
  {
    if Before(rows[i], rows[j]) {
      RankGrows(rows, group, i, j);
    } else if i != j {
      TotalOrder(rows, i, j);
      RankGrows(rows, group, j, i);
    }
  }

  lemma {:induction false} Last(rows: seq<Asset>, group: set<nat>) returns (last: nat)
    requires DistinctIds(rows) && Within(rows, group) && group != {}
    ensures last in group && forall i <- group :: i != last ==> Before(rows[i], rows[last])
    decreases |group|
  {
    var some :| some in group;
    last := some;
    if group != {some} {
      last := Last(rows, group - {some});
      TotalOrder(rows, some, last);
      if !Before(rows[some], rows[last]) { last := some; }
    }
  }

  // Every number below the size of the group is the rank of one of its rows.
  lemma {:induction false} RanksFill(rows: seq<Asset>, group: set<nat>, k: nat) returns (i: nat)
    requires DistinctIds(rows) && Within(rows, group) && k < |group|
    ensures i in group && |Earlier(rows, group, rows[i])| == k
    decreases |group|
  {
    var last := Last(rows, group);
    var rest := group - {last};
    if k == |rest| {
      i := last;
      assert Earlier(rows, group, rows[last]) == rest;
    } else {
      i := RanksFill(rows, rest, k);
      TotalOrder(rows, i, last);
      assert Earlier(rows, group, rows[i]) == Earlier(rows, rest, rows[i]);
    }
  }

  // ---------------------------------------------------------------------------------------------
  // The upgraded table
  // ---------------------------------------------------------------------------------------------

  function OrderOf(rows: seq<Asset>, asset: Asset): int {
    if asset.component.None? then 0 else |Earlier(rows, Partition(rows, asset), asset)|
  }

  // Every row keeps its columns and gets its rank and whether it is its component's earliest.
  ghost predicate Upgraded(rows: seq<Asset>, after: seq<Asset>) {
    |after| == |rows| && forall i | 0 <= i < |rows| ::
      after[i] == rows[i].(order := Some(OrderOf(rows, rows[i])), primary := Some(Earliest(rows, rows[i])))
  }

  lemma SamePartitionSame(rows: seq<Asset>, a: Asset, b: Asset)
    requires SamePartition(a, b)
    ensures Partition(rows, a) == Partition(rows, b)
  {
  }

  lemma OrderExact(rows: seq<Asset>, i: nat, j: nat)
    requires DistinctIds(rows) && i < |rows| && j < |rows| && SamePartition(rows[i], rows[j])
    ensures 0 <= OrderOf(rows, rows[i]) < |Partition(rows, rows[i])|
    ensures Before(rows[i], rows[j]) <==> OrderOf(rows, rows[i]) < OrderOf(rows, rows[j])
  {
    SamePartitionSame(rows, rows[i], rows[j]);
    RankBelow(rows, Partition(rows, rows[i]), i);
    RankExact(rows, Partition(rows, rows[i]), i, j);
  }

  lemma PartitionKept(rows: seq<Asset>, after: seq<Asset>, i: nat)
    requires Upgraded(rows, after) && i < |rows|
    ensures Partition(after, after[i]) == Partition(rows, rows[i])
  {
  }

  lemma OrdersAreFilled(rows: seq<Asset>, after: seq<Asset>)
    requires DistinctIds(rows) && Upgraded(rows, after)
    ensures OrdersFill(after)
  {
    forall i, j | 0 <= i < |after| && 0 <= j < |after| && SamePartition(after[i], after[j])
      ensures after[i].order.Some? && after[j].order.Some? && 0 <= after[i].order.value < |Partition(after, after[i])|
      ensures Before(after[i], after[j]) <==> after[i].order.value < after[j].order.value
    {
      OrderExact(rows, i, j);
      PartitionKept(rows, after, i);
    }
    forall i, k: nat | 0 <= i < |after| && after[i].component.Some? && k < |Partition(after, after[i])|
      ensures Holds(after, after[i], k)
    {
      PartitionKept(rows, after, i);
      var j := RanksFill(rows, Partition(rows, rows[i]), k);
      SamePartitionSame(rows, rows[j], rows[i]);
      assert after[j].order == Some(k) && SamePartition(after[j], after[i]);
    }
  }

  // So the orders of a component's rows of one kind stay below their number, whatever else it has.
  lemma OrdersWithinKind(rows: seq<Asset>, i: nat)
    requires OrdersFill(rows) && i < |rows| && rows[i].component.Some?
    ensures rows[i].order.Some?
    ensures 0 <= rows[i].order.value
              < |set k: nat | k < |rows| && rows[k].component == rows[i].component && rows[k].kind == rows[i].kind|
  {
    assert SamePartition(rows[i], rows[i]);
    assert Partition(rows, rows[i])
        == set k: nat | k < |rows| && rows[k].component == rows[i].component && rows[k].kind == rows[i].kind;
  }

  lemma EarliestKept(rows: seq<Asset>, after: seq<Asset>, i: nat)
    requires Upgraded(rows, after) && i < |rows|
    ensures Earliest(after, after[i]) <==> Earliest(rows, rows[i])
  {
  }

  // The candidates of one component have an earliest.
  lemma {:induction false} EarliestOf(rows: seq<Asset>, group: set<nat>) returns (first: nat)
    requires DistinctIds(rows) && Within(rows, group) && group != {}
    ensures first in group && forall i <- group :: !Before(rows[i], rows[first])
    decreases |group|
  {
    var some :| some in group;
    first := some;
    if group != {some} {
      first := EarliestOf(rows, group - {some});
      TotalOrder(rows, some, first);
      if Before(rows[some], rows[first]) { first := some; }
    }
  }

  lemma HasEarliest(rows: seq<Asset>, i: nat) returns (first: nat)
    requires DistinctIds(rows) && i < |rows| && Eligible(rows[i])
    ensures first < |rows| && rows[first].component == rows[i].component && Earliest(rows, rows[first])
  {
    var group := set j: nat | j < |rows| && Eligible(rows[j]) && rows[j].component == rows[i].component;
    assert i in group;
    first := EarliestOf(rows, group);
    forall other | other in rows && Eligible(other) && other.component == rows[first].component
      ensures !Before(other, rows[first])
    {
      var j :| 0 <= j < |rows| && rows[j] == other;
      assert j in group;
    }
  }

  lemma PrimariesAreEarliest(rows: seq<Asset>, after: seq<Asset>)
    requires DistinctIds(rows) && Upgraded(rows, after)
    ensures OnePrimaryEach(after)
  {
    forall asset | asset in after ensures asset.primary == Some(true) <==> Earliest(after, asset) {
      var i :| 0 <= i < |after| && after[i] == asset;
      EarliestKept(rows, after, i);
    }
    forall asset | asset in after && Eligible(asset)
      ensures exists p <- after :: p.component == asset.component && p.primary == Some(true)
    {
      var i :| 0 <= i < |after| && after[i] == asset;
      var first := HasEarliest(rows, i);
      assert after[first] in after && after[first].primary == Some(true);
    }
  }

  lemma ConstraintsHold(rows: seq<Asset>, after: seq<Asset>)
    requires DistinctIds(rows) && Upgraded(rows, after)
    ensures Constrained(after)
  {
  }

  // ---------------------------------------------------------------------------------------------
  // The migration itself
  // ---------------------------------------------------------------------------------------------

  // The table once orders are in place and no row is primary.
  ghost predicate Prepared(rows: seq<Asset>, ready: seq<Asset>) {
    |ready| == |rows| && forall i | 0 <= i < |rows| ::
      ready[i] == rows[i].(order := Some(OrderOf(rows, rows[i])), primary := Some(false))
  }

  // Among one component's candidates, which share a partition, display order is creation order.
  lemma SoonerIsBefore(rows: seq<Asset>, ready: seq<Asset>, i: nat, j: nat)
    requires DistinctIds(rows) && Prepared(rows, ready) && i < |rows| && j < |rows|
    requires Eligible(rows[i]) && Eligible(rows[j]) && rows[i].component == rows[j].component
    ensures Sooner(ready[i], ready[j]) <==> Before(rows[i], rows[j])
  {
    OrderExact(rows, i, j);
  }

  lemma FirstIsEarliest(rows: seq<Asset>, ready: seq<Asset>, i: nat)
    requires DistinctIds(rows) && Prepared(rows, ready) && i < |rows|
    ensures First(ready, ready[i]) <==> Earliest(rows, rows[i])
  {
    if Eligible(rows[i]) {
      forall j | 0 <= j < |rows| && Eligible(rows[j]) && rows[j].component == rows[i].component
        ensures Sooner(ready[j], ready[i]) <==> Before(rows[j], rows[i])
      {
        SoonerIsBefore(rows, ready, j, i);
      }
      if First(ready, ready[i]) {
        forall other | other in rows && Eligible(other) && other.component == rows[i].component
          ensures !Before(other, rows[i])
        {
          var j :| 0 <= j < |rows| && rows[j] == other;
          assert ready[j] in ready;
        }
      }
      if Earliest(rows, rows[i]) {
        forall other | other in ready && Eligible(other) && other.component == ready[i].component
          ensures !Sooner(other, ready[i])
        {
          var j :| 0 <= j < |ready| && ready[j] == other;
          assert rows[j] in rows;
        }
      }
    }
  }

  lemma MarkedIsUpgraded(rows: seq<Asset>, ready: seq<Asset>, after: seq<Asset>)
    requires DistinctIds(rows) && Prepared(rows, ready) && |after| == |ready|
    requires forall i | 0 <= i < |ready| :: after[i] == Marked(ready, ready[i])
    ensures Upgraded(rows, after)
  {
    forall i | 0 <= i < |rows|
      ensures after[i] == rows[i].(order := Some(OrderOf(rows, rows[i])), primary := Some(Earliest(rows, rows[i])))
    {
      FirstIsEarliest(rows, ready, i);
    }
  }

  // Of two rows of one component and kind, the one created first, or with the smaller id, comes first.
  predicate Sorted(a: Asset, b: Asset) {
    a.component.Some? && a.component == b.component && a.kind == b.kind
    && (a.created < b.created || (a.created == b.created && a.id < b.id)) ==>
      a.order.Some? && b.order.Some? && a.order.value < b.order.value
  }

  // A primary image is one that was not rejected, and no such image of its component came before it.
  predicate Chosen(a: Asset, b: Asset) {
    a.primary == Some(true) && b.component == a.component && b.kind == ImageKind && !b.rejected ==>
      && a.kind == ImageKind && !a.rejected
      && (a.created < b.created || (a.created == b.created && a.id <= b.id))
  }

  lemma PairSorted(rows: seq<Asset>, i: nat, j: nat)
    requires OrdersFollow(rows) && i < |rows| && j < |rows|
    ensures Sorted(rows[i], rows[j])
  {
  }

  lemma PairChosen(rows: seq<Asset>, a: Asset, b: Asset)
    requires (a.primary == Some(true) ==> Earliest(rows, a)) && b in rows
    ensures Chosen(a, b)
  {
  }

  lemma PairInOrder(rows: seq<Asset>, a: Asset, b: Asset)
    requires OrdersFollow(rows) && EarliestMarked(rows) && a in rows && b in rows
    ensures Sorted(a, b) && Chosen(a, b)
  {
    var i :| 0 <= i < |rows| && rows[i] == a;
    var j :| 0 <= j < |rows| && rows[j] == b;
    PairSorted(rows, i, j);
    PairChosen(rows, a, b);
  }

  class MediaAssets {
    var rows: seq<Asset>

    // The columns have just been added, so they are empty; each statement rewrites every row.
    method Upgrade()
      requires DistinctIds(rows) && forall asset <- rows :: asset.order.None? && asset.primary.None?
      modifies this
      ensures Kept(old(rows), rows)
      ensures OrdersFill(rows) && OnePrimaryEach(rows) && Constrained(rows)
      ensures forall a <- rows, b <- rows :: Sorted(a, b) && Chosen(a, b)
    {
      var table := rows;
      rows := Mapped(table, (asset: Asset) => Numbered(table, asset));
      rows := Mapped(rows, Defaulted);
      rows := Mapped(rows, (asset: Asset) => asset.(primary := Some(false)));
      var ready := rows;
      assert Prepared(table, ready);
      rows := Mapped(ready, (asset: Asset) => Marked(ready, asset));
      MarkedIsUpgraded(table, ready, rows);
      OrdersAreFilled(table, rows);
      PrimariesAreEarliest(table, rows);
      ConstraintsHold(table, rows);
      forall a, b | a in rows && b in rows ensures Sorted(a, b) && Chosen(a, b) { PairInOrder(rows, a, b); }
    }
  }
}
