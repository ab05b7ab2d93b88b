/** The editor's list of component images: uploads, edits, the primary choice, moves and removals. */
module Images {
  import opened Prelude

  // `details` stands for purpose, alternative text, caption and the rest of what an image carries.
  datatype Image = Image(id: string, details: string, order: int, primary: bool)

  function PrimaryOf(images: seq<Image>): (id: Option<string>)
    ensures id.Some? ==> exists i :: 0 <= i < |images| && images[i].primary && images[i].id == id.value
    ensures id.None? ==> forall image <- images :: !image.primary
  {
    if images == [] then None
    else if images[0].primary then Some(images[0].id)
    else PrimaryOf(images[1..])
  }

  function Numbered(images: seq<Image>, primary: string): (r: seq<Image>)
    ensures |r| == |images|
    ensures forall i | 0 <= i < |r| :: r[i] == images[i].(order := i, primary := images[i].id == primary)
  {
    seq(|images|, i requires 0 <= i < |images| => images[i].(order := i, primary := images[i].id == primary))
  }

  function Normalise(images: seq<Image>): seq<Image> {
    if images == [] then [] else Numbered(images, PrimaryOf(images).GetOr(images[0].id))
  }

  // Array.prototype.sort by display order, which is stable.
  function Insert(image: Image, sorted: seq<Image>): seq<Image> {
    if sorted == [] || image.order <= sorted[0].order then [image] + sorted
    else [sorted[0]] + Insert(image, sorted[1..])
  }

  function Ordered(images: seq<Image>): seq<Image> {
    if images == [] then [] else Insert(images[0], Ordered(images[1..]))
  }

  datatype Patch = Patch(details: Option<string>, primary: Option<bool>)

  datatype Edit =
    | Upload(image: Image)
    | Change(id: string, patch: Patch)
    | Move(index: nat, up: bool)
    | Remove(id: string)

  function Patched(image: Image, id: string, patch: Patch): Image {
    if image.id == id then
      image.(details := patch.details.GetOr(image.details), primary := patch.primary.GetOr(image.primary))
    else if patch.primary == Some(true) then image.(primary := false)
    else image
  }

  function PatchedAll(images: seq<Image>, id: string, patch: Patch): (r: seq<Image>)
    ensures |r| == |images| && forall i | 0 <= i < |r| :: r[i] == Patched(images[i], id, patch)
  {
    seq(|images|, i requires 0 <= i < |images| => Patched(images[i], id, patch))
  }

  function Without(images: seq<Image>, id: string): (r: seq<Image>)
    ensures forall image <- r :: image in images && image.id != id
  {
    if images == [] then []
    else (if images[0].id == id then [] else [images[0]]) + Without(images[1..], id)
  }

  function Target(index: nat, up: bool): int {
    if up then index - 1 else index + 1
  }

  function Swapped<T>(s: seq<T>, i: int, j: int): seq<T>
    requires 0 <= i < |s| && 0 <= j < |s|
  {
    s[i := s[j]][j := s[i]]
  }

  function Appended(images: seq<Image>, image: Image): seq<Image> {
    images + [image.(order := |images|, primary := images == [])]
  }

  function Apply(images: seq<Image>, edit: Edit): seq<Image> {
    match edit
    case Upload(image) => Appended(images, image)
    case Change(id, patch) => Normalise(PatchedAll(Ordered(images), id, patch))
    case Move(index, up) =>
      var ordered := Ordered(images);
      if index >= |ordered| || Target(index, up) < 0 || Target(index, up) >= |ordered| then images
      else Normalise(Swapped(ordered, index, Target(index, up)))
    case Remove(id) => Normalise(Without(Ordered(images), id))
  }

  // ---------------------------------------------------------------------------------------------
  // The invariant
  // ---------------------------------------------------------------------------------------------

  ghost predicate Distinct(images: seq<Image>) {
    forall i, j | 0 <= i < j < |images| :: images[i].id != images[j].id
  }

  predicate InOrder(images: seq<Image>) {
    forall i | 0 <= i < |images| :: images[i].order == i
  }

  // Exactly one image is the primary one.
  predicate PrimaryAt(images: seq<Image>, p: int) {
    0 <= p < |images| && forall i | 0 <= i < |images| :: images[i].primary <==> i == p
  }

  ghost predicate Valid(images: seq<Image>) {
    Distinct(images) && InOrder(images) && (images != [] ==> exists p :: PrimaryAt(images, p))
  }

  lemma {:induction false} OrderedSame(images: seq<Image>, from: int)
    requires forall i | 0 <= i < |images| :: images[i].order == from + i
    ensures Ordered(images) == images
  {
    if images != [] { OrderedSame(images[1..], from + 1); }
  }

  // Sorting keeps the images and puts them in order, those of equal order as they stood.
  lemma {:induction false} InsertSorts(image: Image, sorted: seq<Image>)
    requires forall i, j | 0 <= i < j < |sorted| :: sorted[i].order <= sorted[j].order
    ensures var r := Insert(image, sorted);
      && |r| == |sorted| + 1 && multiset(r) == multiset(sorted) + multiset{image}
      && (forall i, j | 0 <= i < j < |r| :: r[i].order <= r[j].order)
      && (r[0] == image || (sorted != [] && r[0] == sorted[0] && sorted[0].order < image.order))
  {
    if sorted != [] && image.order > sorted[0].order {
      InsertSorts(image, sorted[1..]);
      assert sorted == [sorted[0]] + sorted[1..];
    }
  }

  lemma {:induction false} OrderedSorts(images: seq<Image>)
    ensures var r := Ordered(images);
      && |r| == |images| && multiset(r) == multiset(images)
      && forall i, j | 0 <= i < j < |r| :: r[i].order <= r[j].order
  {
    if images != [] {
      OrderedSorts(images[1..]);
      InsertSorts(images[0], Ordered(images[1..]));
      assert images == [images[0]] + images[1..];
    }
  }

  predicate SameImages(a: seq<Image>, b: seq<Image>) {
    |a| == |b| && forall i | 0 <= i < |a| :: a[i].id == b[i].id && a[i].details == b[i].details
  }

  lemma {:induction false} FirstPrimary(images: seq<Image>, p: int)
    requires 0 <= p < |images| && images[p].primary && forall i | 0 <= i < p :: !images[i].primary
    ensures PrimaryOf(images) == Some(images[p].id)
  {
    if p > 0 { FirstPrimary(images[1..], p - 1); }
  }

  lemma PrimaryIs(images: seq<Image>, p: int)
    requires PrimaryAt(images, p)
    ensures PrimaryOf(images) == Some(images[p].id)
  {
  }

  lemma NumberedValid(images: seq<Image>, p: int)
    requires Distinct(images) && 0 <= p < |images|
    ensures var r := Numbered(images, images[p].id);
            Valid(r) && PrimaryAt(r, p) && SameImages(images, r)
  {
    var r := Numbered(images, images[p].id);
    assert PrimaryAt(r, p) by {
      forall i | 0 <= i < |r| ensures r[i].primary <==> i == p {
        if i < p { assert images[i].id != images[p].id; } else if p < i { assert images[p].id != images[i].id; }
      }
    }
  }

  // Normalising any list of distinct images gives a valid one of the same images, keeping the first
  // image marked primary, or the first of all.
  lemma Normalised(images: seq<Image>)
    requires Distinct(images)
    ensures Valid(Normalise(images)) && SameImages(images, Normalise(images))
    ensures PrimaryOf(Normalise(images)) == if images == [] then None else Some(PrimaryOf(images).GetOr(images[0].id))
  {
    if images != [] {
      var p :| 0 <= p < |images| && images[p].id == PrimaryOf(images).GetOr(images[0].id);
      NumberedValid(images, p);
      PrimaryIs(Normalise(images), p);
    }
  }

  // ---------------------------------------------------------------------------------------------
  // Each edit
  // ---------------------------------------------------------------------------------------------

  lemma UploadKeeps(images: seq<Image>, image: Image)
    requires Valid(images) && forall other <- images :: other.id != image.id
    ensures Valid(Appended(images, image))
    ensures PrimaryOf(Appended(images, image)) == if images == [] then Some(image.id) else PrimaryOf(images)
  {
    var r := Appended(images, image);
    assert forall i | 0 <= i < |images| :: images[i] in images;
    if images == [] {
      assert PrimaryAt(r, 0);
      PrimaryIs(r, 0);
    } else {
      var p :| PrimaryAt(images, p);
      assert PrimaryAt(r, p);
      PrimaryIs(images, p);
      PrimaryIs(r, p);
    }
  }

  lemma UploadAppends(images: seq<Image>, image: Image)
    ensures SameImages(Apply(images, Upload(image)), images + [image])
  {
  }

  lemma PatchedDistinct(images: seq<Image>, id: string, patch: Patch)
    requires Distinct(images)
    ensures Distinct(PatchedAll(images, id, patch))
  {
  }

  lemma PatchedPrimary(images: seq<Image>, k: int, patch: Patch)
    requires Valid(images) && 0 <= k < |images|
    ensures patch.primary == None ==> PrimaryOf(PatchedAll(images, images[k].id, patch)) == PrimaryOf(images)
    ensures patch.primary == Some(true) ==> PrimaryOf(PatchedAll(images, images[k].id, patch)) == Some(images[k].id)
  {
    var r := PatchedAll(images, images[k].id, patch);
    var p :| PrimaryAt(images, p);
    PrimaryIs(images, p);
    DistinctFrom(images, k);
    if patch.primary == None { PrimaryIs(r, p); } else if patch.primary == Some(true) { PrimaryIs(r, k); }
  }

  // Any edit of one image keeps the list valid, with the same images in the same places.
  lemma ChangeKeeps(images: seq<Image>, id: string, patch: Patch)
    requires Valid(images)
    ensures Apply(images, Change(id, patch)) == Normalise(PatchedAll(images, id, patch))
    ensures Valid(Apply(images, Change(id, patch)))
    ensures SameImages(PatchedAll(images, id, patch), Apply(images, Change(id, patch)))
  {
    OrderedSame(images, 0);
    PatchedDistinct(images, id, patch);
    Normalised(PatchedAll(images, id, patch));
  }

  // An edit changes its own image's details, if it gives any, and no other's.
  lemma ChangeDetails(images: seq<Image>, k: int, patch: Patch)
    requires Valid(images) && 0 <= k < |images|
    ensures var r := Apply(images, Change(images[k].id, patch));
      && |r| == |images| && r[k].id == images[k].id
      && r[k].details == (if patch.details.Some? then patch.details.value else images[k].details)
      && forall i | 0 <= i < |images| && i != k :: r[i].id == images[i].id && r[i].details == images[i].details
  {
    ChangeKeeps(images, images[k].id, patch);
    DistinctFrom(images, k);
  }

  // Unmarking the primary image makes the first one primary.
  lemma UnmarkedPrimary(images: seq<Image>, k: int, patch: Patch)
    requires Valid(images) && PrimaryAt(images, k) && patch.primary == Some(false)
    ensures PrimaryOf(Apply(images, Change(images[k].id, patch))) == Some(images[0].id)
  {
    ChangeKeeps(images, images[k].id, patch);
    PatchedDistinct(images, images[k].id, patch);
    Normalised(PatchedAll(images, images[k].id, patch));
  }

  // Editing details keeps the primary image; choosing one makes it that one.
  lemma ChangePrimary(images: seq<Image>, k: int, patch: Patch)
    requires Valid(images) && 0 <= k < |images|
    ensures patch.primary == None ==> PrimaryOf(Apply(images, Change(images[k].id, patch))) == PrimaryOf(images)
    ensures patch.primary == Some(true) ==> PrimaryOf(Apply(images, Change(images[k].id, patch))) == Some(images[k].id)
  {
    ChangeKeeps(images, images[k].id, patch);
    PatchedDistinct(images, images[k].id, patch);
    Normalised(PatchedAll(images, images[k].id, patch));
    PatchedPrimary(images, k, patch);
    var p :| PrimaryAt(images, p);
    PrimaryIs(images, p);
  }

  lemma DistinctFrom(images: seq<Image>, k: int)
    requires Distinct(images) && 0 <= k < |images|
    ensures forall i | 0 <= i < |images| && i != k :: images[i].id != images[k].id
  {
  }

  lemma SwappedDistinct(images: seq<Image>, i: int, j: int)
    requires Distinct(images) && 0 <= i < |images| && 0 <= j < |images|
    ensures Distinct(Swapped(images, i, j))
  {
  }

  lemma SwappedPrimary(images: seq<Image>, i: int, j: int)
    requires Valid(images) && 0 <= i < |images| && 0 <= j < |images|
    ensures PrimaryOf(Swapped(images, i, j)) == PrimaryOf(images) && PrimaryOf(images).Some?
  {
    var p :| PrimaryAt(images, p);
    PrimaryIs(images, p);
    PrimaryIs(Swapped(images, i, j), if p == i then j else if p == j then i else p);
  }

  // A move exchanges two neighbours and nothing else; the same image stays primary.
  lemma MoveKeeps(images: seq<Image>, index: nat, up: bool)
    requires Valid(images) && index < |images| && 0 <= Target(index, up) < |images|
    ensures var next := Swapped(images, index, Target(index, up));
            var r := Apply(images, Move(index, up));
            r == Normalise(next) && Valid(r) && SameImages(next, r) && PrimaryOf(r) == PrimaryOf(images)
  {
    OrderedSame(images, 0);
    SwappedDistinct(images, index, Target(index, up));
    SwappedPrimary(images, index, Target(index, up));
    Normalised(Swapped(images, index, Target(index, up)));
  }

  lemma SwappedNeighbours<T>(s: seq<T>, i: nat)
    requires i + 1 < |s|
    ensures Swapped(s, i, i + 1) == Swapped(s, i + 1, i) == s[..i] + [s[i + 1], s[i]] + s[i + 2..]
  {
  }

  // Up exchanges an image with the one before it, down with the one behind; at the ends nothing moves.
  lemma MoveUp(images: seq<Image>, index: nat)
    requires Valid(images) && index < |images|
    ensures var r := Apply(images, Move(index, true));
      if index == 0 then r == images
      else SameImages(images[..index - 1] + [images[index], images[index - 1]] + images[index + 1..], r)
  {
    if index == 0 {
      MoveOff(images, index, true);
    } else {
      MoveKeeps(images, index, true);
      SwappedNeighbours(images, index - 1);
    }
  }

  lemma MoveDown(images: seq<Image>, index: nat)
    requires Valid(images) && index < |images|
    ensures var r := Apply(images, Move(index, false));
      if index + 1 == |images| then r == images
      else SameImages(images[..index] + [images[index + 1], images[index]] + images[index + 2..], r)
  {
    if index + 1 == |images| {
      MoveOff(images, index, false);
    } else {
      MoveKeeps(images, index, false);
      SwappedNeighbours(images, index);
    }
  }

  lemma {:induction false} WithoutConcat(a: seq<Image>, b: seq<Image>, id: string)
    ensures Without(a + b, id) == Without(a, id) + Without(b, id)
  {
    if a == [] {
      assert a + b == b;
    } else {
      assert (a + b)[1..] == a[1..] + b;
      WithoutConcat(a[1..], b, id);
    }
  }

  lemma WithoutFirst(image: Image, rest: seq<Image>, id: string)
    ensures Without([image] + rest, id) == if image.id == id then Without(rest, id) else [image] + Without(rest, id)
  {
    assert ([image] + rest)[1..] == rest;
  }

  lemma WithoutBetween(a: seq<Image>, image: Image, b: seq<Image>)
    requires forall other <- a :: other.id != image.id
    requires forall other <- b :: other.id != image.id
    ensures Without(a + ([image] + b), image.id) == a + b
  {
    WithoutConcat(a, [image] + b, image.id);
    WithoutNone(a, image.id);
    WithoutFirst(image, b, image.id);
    WithoutNone(b, image.id);
  }

  lemma Around(images: seq<Image>, k: int)
    requires 0 <= k < |images|
    ensures images == images[..k] + ([images[k]] + images[k + 1..])
  {
  }

  lemma OthersDiffer(images: seq<Image>, k: int)
    requires Distinct(images) && 0 <= k < |images|
    ensures forall other <- images[..k] :: other.id != images[k].id
    ensures forall other <- images[k + 1..] :: other.id != images[k].id
  {
    forall other | other in images[..k] ensures other.id != images[k].id {
      var i :| 0 <= i < k && images[i] == other;
    }
    forall other | other in images[k + 1..] ensures other.id != images[k].id {
      var i :| k < i < |images| && images[i] == other;
    }
  }

  // A removal takes out that image and no other.
  lemma WithoutOne(images: seq<Image>, k: int)
    requires Distinct(images) && 0 <= k < |images|
    ensures Without(images, images[k].id) == images[..k] + images[k + 1..]
  {
    Around(images, k);
    OthersDiffer(images, k);
    WithoutBetween(images[..k], images[k], images[k + 1..]);
  }

  lemma {:induction false} WithoutNone(images: seq<Image>, id: string)
    requires forall image <- images :: image.id != id
    ensures Without(images, id) == images
  {
    if images != [] { WithoutNone(images[1..], id); }
  }

  lemma RemoveTakesOut(images: seq<Image>, k: int)
    requires Valid(images) && 0 <= k < |images|
    ensures SameImages(Apply(images, Remove(images[k].id)), images[..k] + images[k + 1..])
  {
    RemoveKeeps(images, images[k].id);
    WithoutOne(images, k);
  }

  lemma {:induction false} WithoutDistinct(images: seq<Image>, id: string)
    requires Distinct(images)
    ensures Distinct(Without(images, id))
  {
    if images != [] {
      WithoutDistinct(images[1..], id);
      assert forall image <- Without(images[1..], id) :: image in images[1..];
    }
  }

  lemma PrimaryFirst(image: Image, rest: seq<Image>)
    ensures PrimaryOf([image] + rest) == if image.primary then Some(image.id) else PrimaryOf(rest)
  {
    assert ([image] + rest)[1..] == rest;
  }

  lemma {:induction false} WithoutPrimary(images: seq<Image>, id: string, p: int)
    requires PrimaryAt(images, p)
    ensures PrimaryOf(Without(images, id)) == if images[p].id == id then None else Some(images[p].id)
  {
    var first, rest := images[0], images[1..];
    assert images == [first] + rest;
    WithoutFirst(first, rest, id);
    PrimaryFirst(first, Without(rest, id));
    if p > 0 {
      assert PrimaryAt(rest, p - 1);
      WithoutPrimary(rest, id, p - 1);
    } else {
      NoneLeft(rest, id);
    }
  }

  lemma {:induction false} NoneLeft(images: seq<Image>, id: string)
    requires forall image <- images :: !image.primary
    ensures PrimaryOf(Without(images, id)) == None
  {
  }

  // A removal keeps the others in their order, and the primary image unless it was the one removed:
  // then the first of the rest takes over.
  lemma RemoveKeeps(images: seq<Image>, id: string)
    requires Valid(images)
    ensures var r := Apply(images, Remove(id));
            var rest := Without(images, id);
      && Valid(r) && SameImages(rest, r)
      && (PrimaryOf(images) != Some(id) ==> PrimaryOf(r) == PrimaryOf(images))
      && (PrimaryOf(images) == Some(id) ==> PrimaryOf(r) == if rest == [] then None else Some(rest[0].id))
  {
    OrderedSame(images, 0);
    WithoutDistinct(images, id);
    Normalised(Without(images, id));
    if images != [] {
      var p :| PrimaryAt(images, p);
      PrimaryIs(images, p);
      WithoutPrimary(images, id, p);
    }
  }

  // ---------------------------------------------------------------------------------------------
  // Every sequence of edits
  // ---------------------------------------------------------------------------------------------

  // An upload brings an asset the list does not have yet.
  predicate CanApply(images: seq<Image>, edit: Edit) {
    edit.Upload? ==> forall image <- images :: image.id != edit.image.id
  }

  lemma EditKeeps(images: seq<Image>, edit: Edit)
    requires Valid(images) && CanApply(images, edit)
    ensures Valid(Apply(images, edit))
  {
    match edit
    case Upload(image) => UploadKeeps(images, image);
    case Change(id, patch) => ChangeKeeps(images, id, patch);
    case Move(index, up) =>
      OrderedSame(images, 0);
      if index < |images| && 0 <= Target(index, up) < |images| { MoveKeeps(images, index, up); }
    case Remove(id) => RemoveKeeps(images, id);
  }

  lemma {:induction false} EditsKeep(states: seq<seq<Image>>, edits: seq<Edit>, i: nat)
    requires |states| == |edits| + 1 && Valid(states[0])
    requires forall j | 0 <= j < |edits| :: CanApply(states[j], edits[j]) && states[j + 1] == Apply(states[j], edits[j])
    requires i < |states|
    ensures Valid(states[i])
  {
    if i > 0 {
      EditsKeep(states, edits, i - 1);
      EditKeeps(states[i - 1], edits[i - 1]);
    }
  }

  // The exchange, on a copy.
  method SwapInCopy<T>(s: seq<T>, i: nat, j: nat) returns (r: seq<T>)
    requires i < |s| && j < |s|
    ensures r == Swapped(s, i, j)
  {
    var next := new T[|s|](k requires 0 <= k < |s| => s[k]);
    next[i], next[j] := s[j], s[i];
    r := next[..];
  }

  lemma MoveOff(images: seq<Image>, index: nat, up: bool)
    requires Valid(images) && (index >= |images| || Target(index, up) < 0 || Target(index, up) >= |images|)
    ensures Apply(images, Move(index, up)) == images
  {
    OrderedSame(images, 0);
  }

  // The move as the editor does it.
  method MoveImage(images: seq<Image>, index: nat, up: bool) returns (result: seq<Image>)
    requires Valid(images)
    ensures result == Apply(images, Move(index, up))
    ensures PrimaryOf(result) == PrimaryOf(images)
  {
    var target := Target(index, up);
    if index >= |images| || target < 0 || target >= |images| {
      MoveOff(images, index, up);
      return images;
    }
    var next := SwapInCopy(images, index, target);
    MoveKeeps(images, index, up);
    result := Normalise(next);
  }
}
