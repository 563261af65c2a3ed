/**
 * The solvability predicate the generator tests every candidate board against
 * (`checkInitialSolvability`, components/Game.tsx:310-332).
 */
module Solvability {
  import opened Wrappers
  import opened Board

  /** How many of the items in `xs` are of kind `k`. */
  function Tally(xs: seq<Item>, k: Kind): nat
  {
    multiset(Project(xs, KindOf))[k]
  }

  /** The count the check keeps for kind `k`: items of that kind on every shelf but the locked one. */
  function CountOutsideLocked(b: seq<Shelf>, lockedShelfId: Option<int>, k: Kind): nat
  {
    Tally(BoardItems(b, lockedShelfId), k)
  }

  /** The predicate: every standard kind occurs a multiple of three times outside the locked shelf. */
  ghost predicate Solvable(b: seq<Shelf>, lockedShelfId: Option<int>)
  {
    forall k :: !IsSpecial(k) ==> CountOutsideLocked(b, lockedShelfId, k) % 3 == 0
  }

  /** `itemCounts[id] || 0`. */
  function CountOr0(counts: map<Kind, int>, k: Kind): int
  {
    if k in counts then counts[k] else 0
  }

  lemma TallySnoc(xs: seq<Item>, x: Item, k: Kind)
    ensures Tally(xs + [x], k) == Tally(xs, k) + (if x.kind == k then 1 else 0)
  {
    ProjectConcat(xs, [x], KindOf);
  }

  /** One slot of the inner loop: a standard item bumps its kind's count. */
  method TallySlot(counts: map<Kind, int>, slot: Option<Item>, ghost before: seq<Item>) returns (counts': map<Kind, int>)
    requires forall k :: k in counts ==> !IsSpecial(k)
    requires forall k :: !IsSpecial(k) ==> CountOr0(counts, k) == Tally(before, k)
    ensures forall k :: k in counts' ==> !IsSpecial(k)
    ensures forall k :: !IsSpecial(k) ==> CountOr0(counts', k) == Tally(before + OptItems(slot), k)
  {
    counts' := counts;
    if slot.Some? {
      forall k | !IsSpecial(k)
        ensures Tally(before + [slot.value], k) == Tally(before, k) + (if slot.value.kind == k then 1 else 0)
      {
        TallySnoc(before, slot.value, k);
      }
      if !IsSpecial(slot.value.kind) {
        counts' := counts[slot.value.kind := CountOr0(counts, slot.value.kind) + 1];
      }
    } else {
      assert before + OptItems(slot) == before;
    }
  }

  lemma OccupantsPrefix(items: Slots, j: nat)
    requires j < |items|
    ensures Occupants(items[..j + 1]) == Occupants(items[..j]) + OptItems(items[j])
  {
    assert items[..j + 1][..j] == items[..j];
  }

  /** The inner `shelf.items.forEach`: add the standard items of one shelf to the tally. */
  method TallyShelf(counts: map<Kind, int>, items: Slots, ghost before: seq<Item>) returns (counts': map<Kind, int>)
    requires forall k :: k in counts ==> !IsSpecial(k)
    requires forall k :: !IsSpecial(k) ==> CountOr0(counts, k) == Tally(before, k)
    ensures forall k :: k in counts' ==> !IsSpecial(k)
    ensures forall k :: !IsSpecial(k) ==> CountOr0(counts', k) == Tally(before + Occupants(items), k)
  {
    counts' := counts;
    var j := 0;
    assert before + Occupants(items[..0]) == before;
    while j < |items|
      invariant 0 <= j <= |items|
      invariant forall k :: k in counts' ==> !IsSpecial(k)
      invariant forall k :: !IsSpecial(k) ==> CountOr0(counts', k) == Tally(before + Occupants(items[..j]), k)
    {
      OccupantsPrefix(items, j);
      assert before + Occupants(items[..j + 1]) == before + Occupants(items[..j]) + OptItems(items[j]);
      counts' := TallySlot(counts', items[j], before + Occupants(items[..j]));
      j := j + 1;
    }
    assert items[..j] == items;
  }

  /** One shelf of the outer loop: the locked shelf is skipped, any other shelf tallied. */
  method TallyUnlessLocked(counts: map<Kind, int>, shelf: Shelf, lockedShelfId: Option<int>, ghost before: seq<Item>)
    returns (counts': map<Kind, int>)
    requires forall k :: k in counts ==> !IsSpecial(k)
    requires forall k :: !IsSpecial(k) ==> CountOr0(counts, k) == Tally(before, k)
    ensures forall k :: k in counts' ==> !IsSpecial(k)
    ensures forall k :: !IsSpecial(k) ==> CountOr0(counts', k) == Tally(before + Contribution(shelf, lockedShelfId), k)
  {
    if lockedShelfId != Some(shelf.id) {
      counts' := TallyShelf(counts, shelf.items, before);
    } else {
      counts' := counts;
      assert before + Contribution(shelf, lockedShelfId) == before;
    }
  }

  /** The `for (const typeId in itemCounts)` loop: every tallied count is a multiple of three. */
  method AllTalliesDivisible(counts: map<Kind, int>) returns (ok: bool)
    ensures ok <==> forall k :: k in counts ==> counts[k] % 3 == 0
  {
    var remaining := counts.Keys;
    while remaining != {}
      invariant remaining <= counts.Keys
      invariant forall k :: k in counts && k !in remaining ==> counts[k] % 3 == 0
      decreases remaining
    {
      var k :| k in remaining;
      if counts[k] % 3 != 0 {
        return false;
      }
      remaining := remaining - {k};
    }
    return true;
  }

  /** One more shelf of the prefix adds its contribution to the items counted. */
  lemma PrefixStep(shelves: seq<Shelf>, i: nat, lockedShelfId: Option<int>)
    requires i < |shelves|
    ensures BoardItems(shelves[..i + 1], lockedShelfId)
         == BoardItems(shelves[..i], lockedShelfId) + Contribution(shelves[i], lockedShelfId)
  {
    assert shelves[..i + 1][..i] == shelves[..i];
  }

  /** Once the tally covers the board, all counts dividing by three is the predicate. */
  lemma TalliesDecide(counts: map<Kind, int>, shelves: seq<Shelf>, lockedShelfId: Option<int>)
    requires forall k :: k in counts ==> !IsSpecial(k)
    requires forall k :: !IsSpecial(k) ==> CountOr0(counts, k) == CountOutsideLocked(shelves, lockedShelfId, k)
    ensures (forall k :: k in counts ==> counts[k] % 3 == 0) <==> Solvable(shelves, lockedShelfId)
  {
    if !(forall k :: k in counts ==> counts[k] % 3 == 0) {
      var k :| k in counts && counts[k] % 3 != 0;
      assert CountOutsideLocked(shelves, lockedShelfId, k) % 3 != 0;
    }
  }

  /**
   * `checkInitialSolvability`: tally the standard items shelf by shelf, skipping the locked
   * shelf, then reject as soon as one tallied kind is not a multiple of three.
   */
  method CheckInitialSolvability(shelves: seq<Shelf>, lockedShelfId: Option<int>) returns (ok: bool)
    ensures ok == Solvable(shelves, lockedShelfId)
  {
    var counts: map<Kind, int> := map[];
    var i := 0;
    ghost var seen: seq<Item> := [];
    while i < |shelves|
      invariant 0 <= i <= |shelves|
      invariant seen == BoardItems(shelves[..i], lockedShelfId)
      invariant forall k :: k in counts ==> !IsSpecial(k)
      invariant forall k :: !IsSpecial(k) ==> CountOr0(counts, k) == Tally(seen, k)
    {
      PrefixStep(shelves, i, lockedShelfId);
      counts := TallyUnlessLocked(counts, shelves[i], lockedShelfId, seen);
      seen := seen + Contribution(shelves[i], lockedShelfId);
      i := i + 1;
    }
    assert shelves[..i] == shelves;
    ok := AllTalliesDivisible(counts);
    TalliesDecide(counts, shelves, lockedShelfId);
  }

  /** The predicate reads only the standard kinds: specials anywhere never make a board fail. */
  lemma {:induction false} SolvableIgnoresSpecials(xs: seq<Item>, b: seq<Shelf>, c: seq<Shelf>, lockedShelfId: Option<int>)
    requires multiset(BoardItems(c, lockedShelfId)) == multiset(BoardItems(b, lockedShelfId)) + multiset(xs)
    requires forall m :: 0 <= m < |xs| ==> IsSpecial(xs[m].kind)
    requires Solvable(b, lockedShelfId)
    ensures Solvable(c, lockedShelfId)
  {
    forall k | !IsSpecial(k) ensures CountOutsideLocked(c, lockedShelfId, k) % 3 == 0 {
      ProjectPermutation(BoardItems(c, lockedShelfId), BoardItems(b, lockedShelfId) + xs, KindOf);
      ProjectConcat(BoardItems(b, lockedShelfId), xs, KindOf);
      assert k !in Project(xs, KindOf);
    }
  }
}
