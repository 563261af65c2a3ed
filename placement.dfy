/**
 * Randomised placement with the solvability retry (components/Game.tsx:481-526):
 * list the empty slots, shuffle the pool and the slots, write item k into slot k,
 * test the predicate, and try again at most 100 times.
 */
module Placement {
  import opened Wrappers
  import opened Board
  import opened Solvability

  const MaxAttempts: nat := 100

  /**
   * One attempt's random draws. A shuffle is given as picks: the next element is taken
   * from position `pick % remaining`, so every pick list yields a permutation
   * (missing picks take the first remaining element).
   */
  datatype Shuffle = Shuffle(poolPicks: seq<nat>, slotPicks: seq<nat>)

  // ---------------------------------------------------------------------------------
  // Shuffling

  function Shuffled<T>(xs: seq<T>, picks: seq<nat>): (r: seq<T>)
    ensures |r| == |xs| && multiset(r) == multiset(xs)
    decreases |xs|
  {
    if xs == [] then []
    else
      var i := (if picks == [] then 0 else picks[0]) % |xs|;
      MultisetRemoveAt(xs, i);
      [xs[i]] + Shuffled(xs[..i] + xs[i + 1..], if picks == [] then [] else picks[1..])
  }

  /** A shuffle whose first pick is `i` starts with element `i`. */
  lemma ShuffledFirst<T>(xs: seq<T>, i: nat, tail: seq<nat>)
    requires i < |xs|
    ensures Shuffled(xs, [i] + tail) == [xs[i]] + Shuffled(xs[..i] + xs[i + 1..], tail)
  {
    var picks := [i] + tail;
    assert picks != [] && picks[0] == i && picks[1..] == tail;
    ModBelow(i, |xs|);
  }

  /** Proof helper: a number below n is its own remainder modulo n. */
  lemma ModBelow(i: nat, n: nat)
    requires i < n
    ensures i % n == i
  {
  }

  /** The position of the first occurrence of `y` in `xs`. */
  function IndexOf<T(==)>(xs: seq<T>, y: T): (i: nat)
    requires y in xs
    ensures i < |xs| && xs[i] == y
  {
    if xs[0] == y then 0 else 1 + IndexOf(xs[1..], y)
  }

  /** The picks that make the shuffle of `xs` produce `ys`. */
  function PicksFor<T(==)>(xs: seq<T>, ys: seq<T>): seq<nat>
    requires multiset(xs) == multiset(ys)
    decreases |xs|
  {
    if xs == [] then []
    else
      assert |ys| == |multiset(ys)| == |xs|;
      assert ys[0] in multiset(ys);
      var i := IndexOf(xs, ys[0]);
      PermutationTail(xs, ys, i);
      [i] + PicksFor(xs[..i] + xs[i + 1..], ys[1..])
  }

  /** The pick lists reach every ordering: nothing about the shuffles is lost by modelling them so. */
  lemma {:induction false} ShuffledReachesEveryPermutation<T>(xs: seq<T>, ys: seq<T>)
    requires multiset(xs) == multiset(ys)
    ensures Shuffled(xs, PicksFor(xs, ys)) == ys
    decreases |xs|
  {
    if xs == [] {
      assert |ys| == |multiset(ys)| == 0;
    } else {
      assert |ys| == |multiset(ys)| == |xs|;
      assert ys[0] in multiset(ys);
      var i := IndexOf(xs, ys[0]);
      var rest := xs[..i] + xs[i + 1..];
      PermutationTail(xs, ys, i);
      var tail := PicksFor(rest, ys[1..]);
      calc {
        Shuffled(xs, PicksFor(xs, ys));
        Shuffled(xs, [i] + tail);
        { ShuffledFirst(xs, i, tail); }
        [xs[i]] + Shuffled(rest, tail);
        { ShuffledReachesEveryPermutation(rest, ys[1..]); }
        [ys[0]] + ys[1..];
        { ConsSplit(ys); }
        ys;
      }
    }
  }

  /** Proof helper: a non-empty sequence is its head followed by its tail. */
  lemma ConsSplit<T>(ys: seq<T>)
    requires ys != []
    ensures [ys[0]] + ys[1..] == ys
  {
  }

  lemma PermutationTail<T>(xs: seq<T>, ys: seq<T>, i: nat)
    requires multiset(xs) == multiset(ys) && i < |xs| && ys != [] && xs[i] == ys[0]
    ensures multiset(xs[..i] + xs[i + 1..]) == multiset(ys[1..])
  {
    MultisetRemoveAt(xs, i);
    assert multiset(ys) == multiset(ys[1..]) + multiset{ys[0]} by {
      assert ys == [ys[0]] + ys[1..];
    }
    MultisetCancel(multiset(xs[..i] + xs[i + 1..]), multiset(ys[1..]), ys[0]);
  }

  /** Every element occurs at most once. */
  ghost predicate Distinct(xs: seq<SlotRef>)
  {
    forall x :: multiset(xs)[x] <= 1
  }

  lemma DistinctAt(xs: seq<SlotRef>, a: nat, c: nat)
    requires Distinct(xs) && a < c < |xs|
    ensures xs[a] != xs[c]
  {
    assert xs == xs[..c] + xs[c..];
    assert xs[a] in xs[..c] && xs[c] in xs[c..];
    assert multiset(xs)[xs[a]] == multiset(xs[..c])[xs[a]] + multiset(xs[c..])[xs[a]];
  }

  // ---------------------------------------------------------------------------------
  // The empty slots of a board

  /** The slot exists. */
  predicate ValidRef(b: seq<Shelf>, r: SlotRef)
  {
    0 <= r.shelfId < |b| && r.slotIndex < |b[r.shelfId].items|
  }

  /** The slot exists and is empty. */
  predicate FreeRef(b: seq<Shelf>, r: SlotRef)
  {
    ValidRef(b, r) && b[r.shelfId].items[r.slotIndex] == None
  }

  /** The empty slots among the first `j` of a shelf, in index order. */
  function ShelfNulls(sh: Shelf, j: nat): seq<SlotRef>
    requires j <= |sh.items|
  {
    if j == 0 then []
    else ShelfNulls(sh, j - 1) + (if sh.items[j - 1] == None then [SlotRef(sh.id, j - 1)] else [])
  }

  /** `allAvailableSlots` before its shuffle: every empty slot, shelf by shelf. */
  function NullSlots(b: seq<Shelf>): seq<SlotRef>
  {
    if b == [] then [] else NullSlots(b[..|b| - 1]) + ShelfNulls(b[|b| - 1], |b[|b| - 1].items|)
  }

  /** The total capacity of the shelves; `NullSlotsCount` relates it to the slots. */
  function CapacitySum(b: seq<Shelf>): int
  {
    if b == [] then 0 else CapacitySum(b[..|b| - 1]) + b[|b| - 1].capacity
  }

  lemma {:induction false} ShelfNullsWhere(sh: Shelf, j: nat)
    requires j <= |sh.items|
    ensures forall r :: r in ShelfNulls(sh, j) ==>
      r.shelfId == sh.id && r.slotIndex < j && sh.items[r.slotIndex] == None
  {
    if j > 0 {
      ShelfNullsWhere(sh, j - 1);
    }
  }

  lemma {:induction false} ShelfNullsDistinct(sh: Shelf, j: nat)
    requires j <= |sh.items|
    ensures Distinct(ShelfNulls(sh, j))
  {
    if j > 0 {
      ShelfNullsDistinct(sh, j - 1);
      var front := ShelfNulls(sh, j - 1);
      if sh.items[j - 1] == None {
        assert SlotRef(sh.id, j - 1) !in front by {
          ShelfNullsWhere(sh, j - 1);
        }
        DistinctSnoc(front, SlotRef(sh.id, j - 1));
        assert ShelfNulls(sh, j) == front + [SlotRef(sh.id, j - 1)];
      } else {
        assert ShelfNulls(sh, j) == front;
      }
    }
  }

  lemma DistinctSnoc(xs: seq<SlotRef>, y: SlotRef)
    requires Distinct(xs) && y !in xs
    ensures Distinct(xs + [y])
  {
    forall x ensures multiset(xs + [y])[x] <= 1 {
      assert multiset(xs + [y])[x] == multiset(xs)[x] + multiset([y])[x];
    }
  }

  /** Every slot of a well-formed board is empty or occupied, so the two counts make up its capacity. */
  lemma {:induction false} NullSlotsCount(b: seq<Shelf>)
    requires WellFormed(b)
    ensures |NullSlots(b)| + Occupied(b) == CapacitySum(b)
  {
    if b != [] {
      var n := |b|;
      var front := b[..n - 1];
      var sh := b[n - 1];
      assert WellFormed(front);
      NullSlotsCount(front);
      ShelfNullsCount(sh, |sh.items|);
      assert sh.items[..|sh.items|] == sh.items;
      assert BoardItems(b, None) == BoardItems(front, None) + Occupants(sh.items);
    }
  }

  lemma {:induction false} ShelfNullsCount(sh: Shelf, j: nat)
    requires j <= |sh.items|
    ensures |ShelfNulls(sh, j)| + |Occupants(sh.items[..j])| == j
  {
    if j > 0 {
      ShelfNullsCount(sh, j - 1);
      assert sh.items[..j][..j - 1] == sh.items[..j - 1];
      assert Occupants(sh.items[..j]) == Occupants(sh.items[..j - 1]) + OptItems(sh.items[j - 1]);
    }
  }

  /** The listed slots are exactly empty slots, each once, and there are as many as the board has empty slots. */
  lemma NullSlotsFacts(b: seq<Shelf>)
    requires WellFormed(b)
    ensures forall r :: r in NullSlots(b) ==> FreeRef(b, r)
    ensures Distinct(NullSlots(b))
    ensures |NullSlots(b)| + Occupied(b) == CapacitySum(b)
  {
    NullSlotsFree(b);
    NullSlotsDistinct(b);
    NullSlotsCount(b);
  }

  lemma {:induction false} NullSlotsFree(b: seq<Shelf>)
    requires WellFormed(b)
    ensures forall r :: r in NullSlots(b) ==> FreeRef(b, r)
  {
    if b != [] {
      var n := |b|;
      var front := b[..n - 1];
      var sh := b[n - 1];
      assert WellFormed(front);
      NullSlotsFree(front);
      ShelfNullsWhere(sh, |sh.items|);
      forall r | r in NullSlots(b) ensures FreeRef(b, r) {
        if r in NullSlots(front) {
          assert FreeRef(front, r);
          assert front[r.shelfId] == b[r.shelfId];
        }
      }
    }
  }

  lemma {:induction false} NullSlotsDistinct(b: seq<Shelf>)
    requires WellFormed(b)
    ensures Distinct(NullSlots(b))
  {
    if b != [] {
      var n := |b|;
      var front := b[..n - 1];
      var sh := b[n - 1];
      var last := ShelfNulls(sh, |sh.items|);
      assert WellFormed(front);
      NullSlotsDistinct(front);
      NullSlotsFree(front);
      ShelfNullsWhere(sh, |sh.items|);
      ShelfNullsDistinct(sh, |sh.items|);
      assert NullSlots(b) == NullSlots(front) + last;
      forall x ensures multiset(NullSlots(b))[x] <= 1 {
        assert multiset(NullSlots(b))[x] == multiset(NullSlots(front))[x] + multiset(last)[x];
        if x in last {
          assert x.shelfId == n - 1;
          assert x !in NullSlots(front);
        }
      }
    }
  }

  /** A shelf with no empty slot has none listed. */
  lemma NullSlotsAvoidFullShelf(b: seq<Shelf>, i: nat)
    requires WellFormed(b) && i < |b|
    requires forall j :: 0 <= j < |b[i].items| ==> b[i].items[j].Some?
    ensures forall r :: r in NullSlots(b) ==> r.shelfId != i
  {
    NullSlotsFacts(b);
  }

  /** `collectEmptySlots`: the nested loop over shelves and slot indices below each capacity. */
  method CollectEmptySlots(b: seq<Shelf>) returns (slots: seq<SlotRef>)
    requires WellFormed(b)
    ensures slots == NullSlots(b)
  {
    slots := [];
    var k := 0;
    while k < |b|
      invariant 0 <= k <= |b|
      invariant slots == NullSlots(b[..k])
    {
      var shelf := b[k];
      var i := 0;
      while i < shelf.capacity
        invariant 0 <= i <= shelf.capacity
        invariant slots == NullSlots(b[..k]) + ShelfNulls(shelf, i)
      {
        if shelf.items[i] == None {
          slots := slots + [SlotRef(shelf.id, i)];
        }
        i := i + 1;
      }
      assert b[..k + 1][..k] == b[..k];
      k := k + 1;
    }
    assert b[..k] == b;
  }

  // ---------------------------------------------------------------------------------
  // Placing the pool

  /** Item m of `items` written into slot `refs[m]` (`shelf.items[slot.slotIndex] = item`), in order. */
  function Place(b: seq<Shelf>, items: seq<Item>, refs: seq<SlotRef>): (r: seq<Shelf>)
    requires |items| <= |refs|
    requires forall m :: 0 <= m < |refs| ==> ValidRef(b, refs[m])
    ensures SameShape(r, b)
    decreases |items|
  {
    if items == [] then b
    else
      var n := |items|;
      var prev := Place(b, items[..n - 1], refs);
      SetSlot(prev, refs[n - 1].shelfId, refs[n - 1].slotIndex, Some(items[n - 1]))
  }

  /** A slot that no item is written to keeps its content. */
  lemma {:induction false} PlaceKeepsOtherSlots(b: seq<Shelf>, items: seq<Item>, refs: seq<SlotRef>, r: SlotRef)
    requires |items| <= |refs|
    requires forall m :: 0 <= m < |refs| ==> ValidRef(b, refs[m])
    requires ValidRef(b, r) && forall m :: 0 <= m < |items| ==> refs[m] != r
    ensures Place(b, items, refs)[r.shelfId].items[r.slotIndex] == b[r.shelfId].items[r.slotIndex]
    decreases |items|
  {
    if items != [] {
      PlaceKeepsOtherSlots(b, items[..|items| - 1], refs, r);
    }
  }

  /**
   * Writing the pool into distinct empty slots adds exactly the pool to the board, and to
   * any view that leaves out a shelf none of the slots is on.
   */
  lemma {:induction false} PlaceContents(b: seq<Shelf>, items: seq<Item>, refs: seq<SlotRef>, skip: Option<int>)
    requires |items| <= |refs| && Distinct(refs)
    requires forall m :: 0 <= m < |refs| ==> ValidRef(b, refs[m])
    requires forall m :: 0 <= m < |refs| ==> FreeRef(b, refs[m]) && skip != Some(b[refs[m].shelfId].id)
    ensures multiset(BoardItems(Place(b, items, refs), skip)) == multiset(BoardItems(b, skip)) + multiset(items)
    decreases |items|
  {
    if items != [] {
      var n := |items|;
      var front := items[..n - 1];
      PlaceContents(b, front, refs, skip);
      PlaceLastSlot(b, items, refs, skip);
      MultisetSnoc(multiset(BoardItems(Place(b, items, refs), skip)), multiset(BoardItems(Place(b, front, refs), skip)),
        multiset(BoardItems(b, skip)), items);
    }
  }

  lemma MultisetSnoc(whole: multiset<Item>, prev: multiset<Item>, base: multiset<Item>, items: seq<Item>)
    requires items != []
    requires prev == base + multiset(items[..|items| - 1])
    requires whole == prev + multiset{items[|items| - 1]}
    ensures whole == base + multiset(items)
  {
    assert items == items[..|items| - 1] + [items[|items| - 1]];
  }

  /** The last write of a placement lands on a slot the earlier writes left empty. */
  lemma PlaceLastSlot(b: seq<Shelf>, items: seq<Item>, refs: seq<SlotRef>, skip: Option<int>)
    requires items != [] && |items| <= |refs| && Distinct(refs)
    requires forall m :: 0 <= m < |refs| ==> ValidRef(b, refs[m])
    requires forall m :: 0 <= m < |refs| ==> FreeRef(b, refs[m]) && skip != Some(b[refs[m].shelfId].id)
    ensures multiset(BoardItems(Place(b, items, refs), skip))
         == multiset(BoardItems(Place(b, items[..|items| - 1], refs), skip)) + multiset{items[|items| - 1]}
  {
    var n := |items|;
    var front := items[..n - 1];
    var r := refs[n - 1];
    DistinctBefore(refs, n - 1);
    PlaceKeepsOtherSlots(b, front, refs, r);
    var prev := Place(b, front, refs);
    assert FreeRef(b, r);
    WriteFreeSlot(prev, r, items[n - 1], skip);
  }

  /** No slot in a distinct list repeats an earlier one. */
  lemma DistinctBefore(refs: seq<SlotRef>, k: nat)
    requires Distinct(refs) && k < |refs|
    ensures forall m :: 0 <= m < k ==> refs[m] != refs[k]
  {
    forall m | 0 <= m < k ensures refs[m] != refs[k] {
      DistinctAt(refs, m, k);
    }
  }

  /** Writing an item into an empty slot adds exactly that item to a view that sees the slot. */
  lemma WriteFreeSlot(b: seq<Shelf>, r: SlotRef, x: Item, skip: Option<int>)
    requires FreeRef(b, r) && skip != Some(b[r.shelfId].id)
    ensures multiset(BoardItems(SetSlot(b, r.shelfId, r.slotIndex, Some(x)), skip)) == multiset(BoardItems(b, skip)) + multiset{x}
  {
    SetSlotItems(b, r.shelfId, r.slotIndex, Some(x), skip);
  }

  /** The placement loop: pool item k is written into slot k. */
  method PlaceItems(b: seq<Shelf>, items: seq<Item>, refs: seq<SlotRef>) returns (board: seq<Shelf>)
    requires |items| <= |refs|
    requires forall m :: 0 <= m < |refs| ==> ValidRef(b, refs[m])
    ensures board == Place(b, items, refs)
  {
    board := b;
    var idx := 0;
    while idx < |items|
      invariant 0 <= idx <= |items|
      invariant board == Place(b, items[..idx], refs)
    {
      var slot := refs[idx];
      assert items[..idx + 1][..idx] == items[..idx];
      board := SetSlot(board, slot.shelfId, slot.slotIndex, Some(items[idx]));
      idx := idx + 1;
    }
    assert items[..idx] == items;
  }

  // ---------------------------------------------------------------------------------
  // The retry loop

  /** Every standard kind occurs a multiple of three times in the pool. */
  ghost predicate PoolDivisible(pool: seq<Item>)
  {
    forall k :: !IsSpecial(k) ==> Tally(pool, k) % 3 == 0
  }

  /** No empty slot of the board is on the shelf the predicate leaves out. */
  ghost predicate NoFreeSlotOn(b: seq<Shelf>, lockedShelfId: Option<int>)
  {
    forall r :: r in NullSlots(b) ==> lockedShelfId != Some(r.shelfId)
  }

  /**
   * What one completed attempt leaves: the base board with the pool added, on the same
   * shape, with every slot the base board had filled left as it was.
   */
  ghost predicate PlacedFrom(base: seq<Shelf>, pool: seq<Item>, board: seq<Shelf>)
  {
    WellFormed(board) && SameShape(board, base) &&
    multiset(BoardItems(board, None)) == multiset(BoardItems(base, None)) + multiset(pool) &&
    forall i, j :: 0 <= i < |base| && 0 <= j < |base[i].items| && base[i].items[j].Some? ==>
      board[i].items[j] == base[i].items[j]
  }

  /** A reordering of the empty-slot list names distinct empty slots. */
  lemma ReorderedSlotsFree(base: seq<Shelf>, refs: seq<SlotRef>)
    requires WellFormed(base) && multiset(refs) == multiset(NullSlots(base))
    ensures Distinct(refs)
    ensures forall m :: 0 <= m < |refs| ==> ValidRef(base, refs[m]) && FreeRef(base, refs[m]) && refs[m] in NullSlots(base)
  {
    NullSlotsFacts(base);
    forall x ensures multiset(refs)[x] <= 1 {
      assert multiset(refs)[x] == multiset(NullSlots(base))[x];
    }
    forall m | 0 <= m < |refs| ensures refs[m] in NullSlots(base) {
      assert refs[m] in multiset(refs);
      assert refs[m] in multiset(NullSlots(base));
    }
  }

  /** One attempt's board holds the base board's items and the pool, on the base board's shape. */
  lemma AttemptPlaced(base: seq<Shelf>, pool: seq<Item>, refs: seq<SlotRef>)
    requires WellFormed(base) && |pool| <= |refs| && Distinct(refs)
    requires forall m :: 0 <= m < |refs| ==> ValidRef(base, refs[m]) && FreeRef(base, refs[m])
    ensures PlacedFrom(base, pool, Place(base, pool, refs))
  {
    PlaceContents(base, pool, refs, None);
    forall i, j | 0 <= i < |base| && 0 <= j < |base[i].items| && base[i].items[j].Some?
      ensures Place(base, pool, refs)[i].items[j] == base[i].items[j]
    {
      PlaceKeepsOtherSlots(base, pool, refs, SlotRef(i, j));
    }
  }

  /**
   * When the shelf the predicate leaves out has no empty slot and no item outside it yet,
   * every attempt with a pool of whole triples passes the predicate.
   */
  lemma AttemptSolvable(base: seq<Shelf>, pool: seq<Item>, refs: seq<SlotRef>, lockedShelfId: Option<int>)
    requires WellFormed(base) && |pool| <= |refs| && Distinct(refs)
    requires forall m :: 0 <= m < |refs| ==> ValidRef(base, refs[m]) && FreeRef(base, refs[m]) && refs[m] in NullSlots(base)
    requires NoFreeSlotOn(base, lockedShelfId) && BoardItems(base, lockedShelfId) == [] && PoolDivisible(pool)
    ensures Solvable(Place(base, pool, refs), lockedShelfId)
  {
    var board := Place(base, pool, refs);
    forall m | 0 <= m < |refs| ensures lockedShelfId != Some(base[refs[m].shelfId].id) {
      assert refs[m] in NullSlots(base);
    }
    PlaceContents(base, pool, refs, lockedShelfId);
    forall k | !IsSpecial(k) ensures CountOutsideLocked(board, lockedShelfId, k) % 3 == 0 {
      ProjectPermutation(BoardItems(board, lockedShelfId), pool, KindOf);
    }
  }

  /** The draws of attempt `k`; attempts beyond the given draws take the first element each time. */
  function Draw(shuffles: seq<Shuffle>, k: nat): Shuffle
  {
    if k < |shuffles| then shuffles[k] else Shuffle([], [])
  }

  /** The board attempt `k` builds: its shuffle of the pool written into its shuffle of the empty slots. */
  function AttemptBoard(base: seq<Shelf>, pool: seq<Item>, shuffles: seq<Shuffle>, k: nat): seq<Shelf>
    requires WellFormed(base) && |pool| <= |NullSlots(base)|
  {
    var refs := Shuffled(NullSlots(base), Draw(shuffles, k).slotPicks);
    ReorderedSlotsFree(base, refs);
    Place(base, Shuffled(pool, Draw(shuffles, k).poolPicks), refs)
  }

  /** Attempt `k`'s board passes the predicate. */
  ghost predicate AttemptPasses(base: seq<Shelf>, pool: seq<Item>, lockedShelfId: Option<int>, shuffles: seq<Shuffle>, k: nat)
    requires WellFormed(base) && |pool| <= |NullSlots(base)|
  {
    Solvable(AttemptBoard(base, pool, shuffles, k), lockedShelfId)
  }

  /** There are enough empty slots and one of the 100 attempts passes. */
  ghost predicate SomeAttemptPasses(base: seq<Shelf>, pool: seq<Item>, lockedShelfId: Option<int>, shuffles: seq<Shuffle>)
  {
    WellFormed(base) && |pool| <= |NullSlots(base)| &&
    exists k :: 0 <= k < MaxAttempts && AttemptPasses(base, pool, lockedShelfId, shuffles, k)
  }

  /** `board` is the board of the first attempt that passes. */
  ghost predicate FirstPassingBoard(base: seq<Shelf>, pool: seq<Item>, lockedShelfId: Option<int>, shuffles: seq<Shuffle>,
                                    board: seq<Shelf>)
  {
    WellFormed(base) && |pool| <= |NullSlots(base)| &&
    exists k :: 0 <= k < MaxAttempts && board == AttemptBoard(base, pool, shuffles, k) &&
      AttemptPasses(base, pool, lockedShelfId, shuffles, k) &&
      forall j :: 0 <= j < k ==> !AttemptPasses(base, pool, lockedShelfId, shuffles, j)
  }

  /**
   * One pass of the retry loop's body: shuffle the pool, list the empty slots, stop when
   * there are too few, otherwise shuffle the slots, write the pool into them and test the
   * predicate on attempt `k`'s board.
   */
  method Attempt(base: seq<Shelf>, pool: seq<Item>, lockedShelfId: Option<int>, shuffles: seq<Shuffle>, k: nat)
    returns (short: bool, passed: bool, board: seq<Shelf>)
    requires WellFormed(base)
    ensures short <==> |NullSlots(base)| < |pool|
    ensures short ==> !passed
    ensures !short ==> board == AttemptBoard(base, pool, shuffles, k) && PlacedFrom(base, pool, board)
    ensures !short ==> (passed <==> AttemptPasses(base, pool, lockedShelfId, shuffles, k))
    ensures !short && NoFreeSlotOn(base, lockedShelfId) && BoardItems(base, lockedShelfId) == [] && PoolDivisible(pool) ==> passed
  {
    var draws := Draw(shuffles, k);
    var currentPool := Shuffled(pool, draws.poolPicks);
    var slots := CollectEmptySlots(base);
    board := base;
    if |slots| < |currentPool| {
      return true, false, board;
    }
    short := false;
    var slotOrder := Shuffled(slots, draws.slotPicks);
    ReorderedSlotsFree(base, slotOrder);
    board := PlaceItems(base, currentPool, slotOrder);
    AttemptPlaced(base, currentPool, slotOrder);
    if NoFreeSlotOn(base, lockedShelfId) && BoardItems(base, lockedShelfId) == [] && PoolDivisible(pool) {
      forall k | !IsSpecial(k) ensures Tally(currentPool, k) == Tally(pool, k) {
        ProjectPermutation(currentPool, pool, KindOf);
      }
      AttemptSolvable(base, currentPool, slotOrder, lockedShelfId);
    }
    passed := CheckInitialSolvability(board, lockedShelfId);
  }

  /** There are enough empty slots and none of the first `n` attempts passes. */
  ghost predicate NoneBefore(base: seq<Shelf>, pool: seq<Item>, lockedShelfId: Option<int>, shuffles: seq<Shuffle>, n: nat)
  {
    WellFormed(base) && |pool| <= |NullSlots(base)| &&
    forall j :: 0 <= j < n ==> !AttemptPasses(base, pool, lockedShelfId, shuffles, j)
  }

  lemma NoneBeforeStep(base: seq<Shelf>, pool: seq<Item>, lockedShelfId: Option<int>, shuffles: seq<Shuffle>, n: nat)
    requires NoneBefore(base, pool, lockedShelfId, shuffles, n) && !AttemptPasses(base, pool, lockedShelfId, shuffles, n)
    ensures NoneBefore(base, pool, lockedShelfId, shuffles, n + 1)
  {
  }

  /** When every one of the 100 attempts fails, no attempt passes. */
  lemma AllAttemptsFail(base: seq<Shelf>, pool: seq<Item>, lockedShelfId: Option<int>, shuffles: seq<Shuffle>)
    requires NoneBefore(base, pool, lockedShelfId, shuffles, MaxAttempts)
    ensures !SomeAttemptPasses(base, pool, lockedShelfId, shuffles)
  {
  }

  /** The first attempt that passes is a passing attempt, and its board is the first passing board. */
  lemma FirstAttemptPasses(base: seq<Shelf>, pool: seq<Item>, lockedShelfId: Option<int>, shuffles: seq<Shuffle>, n: nat)
    requires n < MaxAttempts && NoneBefore(base, pool, lockedShelfId, shuffles, n)
    requires AttemptPasses(base, pool, lockedShelfId, shuffles, n)
    ensures SomeAttemptPasses(base, pool, lockedShelfId, shuffles)
    ensures FirstPassingBoard(base, pool, lockedShelfId, shuffles, AttemptBoard(base, pool, shuffles, n))
  {
  }

  /**
   * The `while (!solvable && attempts < 100)` loop. An attempt that finds fewer empty slots
   * than items stops the loop at once; one that fails the predicate counts as an attempt.
   * The loop succeeds exactly when one of the 100 attempts passes, and then keeps the first
   * passing attempt's board.
   */
  method PlaceWithRetries(base: seq<Shelf>, pool: seq<Item>, lockedShelfId: Option<int>, shuffles: seq<Shuffle>)
    returns (solvable: bool, board: seq<Shelf>)
    requires WellFormed(base)
    ensures solvable ==> PlacedFrom(base, pool, board) && Solvable(board, lockedShelfId)
    ensures |NullSlots(base)| < |pool| ==> !solvable
    ensures (|NullSlots(base)| >= |pool| && NoFreeSlotOn(base, lockedShelfId) &&
             BoardItems(base, lockedShelfId) == [] && PoolDivisible(pool)) ==> solvable
    ensures solvable <==> SomeAttemptPasses(base, pool, lockedShelfId, shuffles)
    ensures solvable ==> FirstPassingBoard(base, pool, lockedShelfId, shuffles, board)
  {
    ghost var guaranteed := NoFreeSlotOn(base, lockedShelfId) && BoardItems(base, lockedShelfId) == [] && PoolDivisible(pool);
    var attempts := 0;
    solvable := false;
    board := base;
    var short := false;
    while !solvable && attempts < MaxAttempts
      invariant 0 <= attempts <= MaxAttempts
      invariant guaranteed && |pool| <= |NullSlots(base)| ==> attempts == 0
      invariant |pool| <= |NullSlots(base)| ==> NoneBefore(base, pool, lockedShelfId, shuffles, attempts)
      invariant short ==> !solvable && |NullSlots(base)| < |pool|
      invariant solvable ==>
        |pool| <= |NullSlots(base)| && attempts < MaxAttempts && board == AttemptBoard(base, pool, shuffles, attempts) &&
        PlacedFrom(base, pool, board) && AttemptPasses(base, pool, lockedShelfId, shuffles, attempts)
      decreases MaxAttempts - attempts, if solvable then 0 else 1
    {
      short, solvable, board := Attempt(base, pool, lockedShelfId, shuffles, attempts);
      if short {
        break;
      }
      if !solvable {
        NoneBeforeStep(base, pool, lockedShelfId, shuffles, attempts);
        attempts := attempts + 1;
      }
    }
    if solvable {
      FirstAttemptPasses(base, pool, lockedShelfId, shuffles, attempts);
    } else if |pool| <= |NullSlots(base)| {
      AllAttemptsFail(base, pool, lockedShelfId, shuffles);
    }
  }
}
