/**
 * Items, shelves and the board they make up (components/Game.tsx:17-33, 203-213),
 * together with the views of a board that the rest of the model reasons about:
 * the items a board holds, shelf lookup by id and the lowest empty slot.
 */
module Board {
  import opened Wrappers

  /** The `id` of an ItemType. */
  datatype Kind = Soda | Milk | Chips | Jam | Juice | Water | Bomb | IceCream | Key

  /** The kinds tied to a level constraint; the solvability check ignores them. */
  predicate IsSpecial(k: Kind)
  {
    k == Bomb || k == IceCream || k == Key
  }

  /** `ITEM_TYPES` in declaration order. */
  const ItemKinds: seq<Kind> := [Soda, Milk, Chips, Jam, Juice, Water, Bomb, IceCream, Key]

  /** `standardItemTypes`: `ITEM_TYPES` without the special kinds, order kept. */
  const StandardKinds: seq<Kind> := [Soda, Milk, Chips, Jam, Juice, Water]

  /** An item instance; `uid` stands for the random identifier string. */
  datatype Item = Item(uid: nat, kind: Kind, fragileMoves: Option<int>)

  /** The `items` array of a shelf: `None` is an empty slot. */
  type Slots = seq<Option<Item>>

  datatype Shelf = Shelf(id: int, capacity: int, items: Slots)

  /** A slot address as the generator lists them: shelf id and slot index. */
  datatype SlotRef = SlotRef(shelfId: int, slotIndex: nat)

  function KindOf(x: Item): Kind { x.kind }

  function UidOf(x: Item): nat { x.uid }

  /** One field of every item of `xs`, in order. */
  function Project<U>(xs: seq<Item>, f: Item -> U): (r: seq<U>)
    ensures |r| == |xs|
    ensures forall m :: 0 <= m < |xs| ==> r[m] == f(xs[m])
  {
    seq(|xs|, m requires 0 <= m < |xs| => f(xs[m]))
  }

  /** `Array(n).fill(null)`. */
  function Nulls(n: nat): (r: Slots)
    ensures |r| == n
    ensures forall j :: 0 <= j < n ==> r[j] == None
  {
    seq(n, j => None)
  }

  function OptItems(o: Option<Item>): seq<Item>
  {
    if o.Some? then [o.value] else []
  }

  /** The items held by a slot array, in slot order. */
  function Occupants(items: Slots): seq<Item>
  {
    if items == [] then [] else Occupants(items[..|items| - 1]) + OptItems(items[|items| - 1])
  }

  /** The items a shelf contributes to a board view that leaves out the shelf whose id is `skip`. */
  function Contribution(sh: Shelf, skip: Option<int>): seq<Item>
  {
    if skip == Some(sh.id) then [] else Occupants(sh.items)
  }

  /** Every item on the board, shelf by shelf, leaving out the shelf whose id is `skip`. */
  function BoardItems(b: seq<Shelf>, skip: Option<int>): seq<Item>
  {
    if b == [] then [] else BoardItems(b[..|b| - 1], skip) + Contribution(b[|b| - 1], skip)
  }

  /** Number of occupied slots on the whole board. */
  function Occupied(b: seq<Shelf>): nat
  {
    |BoardItems(b, None)|
  }

  predicate IsEmptyShelf(sh: Shelf)
  {
    forall j :: 0 <= j < |sh.items| ==> sh.items[j] == None
  }

  /** No two items anywhere in `xs` share a uid. */
  ghost predicate UidsUnique(xs: seq<Item>)
  {
    forall u :: multiset(Project(xs, UidOf))[u] <= 1
  }

  /** The generator's shape: shelf i has id i and exactly `capacity` slots. */
  predicate WellFormed(b: seq<Shelf>)
  {
    forall i :: 0 <= i < |b| ==> b[i].id == i && |b[i].items| == b[i].capacity
  }

  /** Shelf lengths (and ids, capacities) of two boards agree. */
  predicate SameShape(b: seq<Shelf>, c: seq<Shelf>)
  {
    |b| == |c| &&
    forall i :: 0 <= i < |b| ==>
      b[i].id == c[i].id && b[i].capacity == c[i].capacity && |b[i].items| == |c[i].items|
  }

  /** The position of the first shelf with the given id. */
  function FindShelf(b: seq<Shelf>, id: int): (r: Option<nat>)
    ensures r.Some? ==> r.value < |b| && b[r.value].id == id
    ensures r.Some? ==> forall k :: 0 <= k < r.value ==> b[k].id != id
    ensures r.None? <==> forall k :: 0 <= k < |b| ==> b[k].id != id
  {
    if b == [] then None
    else if b[0].id == id then Some(0)
    else match FindShelf(b[1..], id)
      case None => None
      case Some(k) => Some(k + 1)
  }

  /** The lowest empty slot of a shelf, or `None` when every slot is occupied. */
  function FirstNull(items: Slots): (r: Option<nat>)
    ensures r.Some? ==> r.value < |items| && items[r.value] == None
    ensures r.Some? ==> forall j :: 0 <= j < r.value ==> items[j].Some?
    ensures r.None? <==> forall j :: 0 <= j < |items| ==> items[j].Some?
  {
    if items == [] then None
    else if items[0] == None then Some(0)
    else match FirstNull(items[1..])
      case None => None
      case Some(k) => Some(k + 1)
  }

  /** Board `b` with slot `j` of the shelf at position `i` set to `v`. */
  function SetSlot(b: seq<Shelf>, i: nat, j: nat, v: Option<Item>): (r: seq<Shelf>)
    requires i < |b| && j < |b[i].items|
    ensures SameShape(r, b)
  {
    b[i := b[i].(items := b[i].items[j := v])]
  }

  // ---------------------------------------------------------------------------------
  // Lemmas about the views

  /** Adding the same multiset to both sides keeps an equation. */
  lemma MultisetShift<T>(a: multiset<T>, b: multiset<T>, c: multiset<T>, d: multiset<T>, e: multiset<T>)
    requires a + d == c + e
    ensures a + b + d == c + b + e
  {
    forall o ensures (a + b + d)[o] == (c + b + e)[o] {
      assert (a + d)[o] == (c + e)[o];
    }
  }

  lemma ProjectConcat<U>(xs: seq<Item>, ys: seq<Item>, f: Item -> U)
    ensures Project(xs + ys, f) == Project(xs, f) + Project(ys, f)
  {
  }

  /** Two swap equations compose. */
  lemma MultisetChain<T>(x: multiset<T>, o: multiset<T>, b: multiset<T>, s: multiset<T>, p: multiset<T>, v: multiset<T>)
    requires x + o == b + s && s + p == o + v
    ensures x + p == b + v
  {
    forall e ensures (x + p)[e] == (b + v)[e] {
      assert (x + o)[e] == (b + s)[e];
      assert (s + p)[e] == (o + v)[e];
    }
  }

  /** Taking one element out of a sequence takes it out of its multiset. */
  lemma MultisetRemoveAt<T>(ys: seq<T>, i: nat)
    requires i < |ys|
    ensures multiset(ys) == multiset(ys[..i] + ys[i + 1..]) + multiset{ys[i]}
  {
    assert ys == ys[..i] + [ys[i]] + ys[i + 1..];
    forall e ensures multiset(ys)[e] == (multiset(ys[..i] + ys[i + 1..]) + multiset{ys[i]})[e] {
      assert multiset(ys)[e] == multiset(ys[..i])[e] + multiset([ys[i]])[e] + multiset(ys[i + 1..])[e];
    }
  }

  lemma ProjectRemoveAt<U>(ys: seq<Item>, i: nat, f: Item -> U)
    requires i < |ys|
    ensures multiset(Project(ys, f)) == multiset(Project(ys[..i] + ys[i + 1..], f)) + multiset{f(ys[i])}
  {
    var pys := Project(ys, f);
    assert Project(ys[..i] + ys[i + 1..], f) == pys[..i] + pys[i + 1..];
    MultisetRemoveAt(pys, i);
  }

  lemma MultisetCancel<T>(a: multiset<T>, b: multiset<T>, x: T)
    requires a + multiset{x} == b + multiset{x}
    ensures a == b
  {
    forall e ensures a[e] == b[e] {
      assert (a + multiset{x})[e] == (b + multiset{x})[e];
    }
  }

  lemma ProjectSnoc<U>(xs: seq<Item>, x: Item, f: Item -> U)
    ensures multiset(Project(xs + [x], f)) == multiset(Project(xs, f)) + multiset{f(x)}
  {
    ProjectConcat(xs, [x], f);
    assert Project([x], f) == [f(x)];
  }

  /** Equal multisets of items have equal multisets of any field. */
  lemma {:induction false} ProjectPermutation<U>(xs: seq<Item>, ys: seq<Item>, f: Item -> U)
    requires multiset(xs) == multiset(ys)
    ensures multiset(Project(xs, f)) == multiset(Project(ys, f))
  {
    if xs == [] {
      assert |ys| == |multiset(ys)| == 0;
    } else {
      var n := |xs|;
      var x := xs[n - 1];
      var front := xs[..n - 1];
      assert xs == front + [x];
      assert x in multiset(ys);
      assert x in ys;
      var i :| 0 <= i < |ys| && ys[i] == x;
      var rest := ys[..i] + ys[i + 1..];
      MultisetRemoveAt(ys, i);
      assert multiset(front) + multiset{x} == multiset(rest) + multiset{x};
      MultisetCancel(multiset(front), multiset(rest), x);
      ProjectPermutation(front, rest, f);
      ProjectSnoc(front, x, f);
      ProjectRemoveAt(ys, i, f);
    }
  }

  /** A permutation of a uid-unique sequence is uid-unique. */
  lemma UniquePermutation(xs: seq<Item>, ys: seq<Item>)
    requires multiset(xs) == multiset(ys) && UidsUnique(ys)
    ensures UidsUnique(xs)
  {
    ProjectPermutation(xs, ys, UidOf);
  }

  lemma OccupantsConcat(a: Slots, c: Slots)
    ensures Occupants(a + c) == Occupants(a) + Occupants(c)
  {
    if c != [] {
      assert (a + c)[..|a + c| - 1] == a + c[..|c| - 1];
      OccupantsConcat(a, c[..|c| - 1]);
    } else {
      assert a + c == a;
    }
  }

  lemma {:induction false} OccupantsOfNulls(n: nat)
    ensures Occupants(Nulls(n)) == []
  {
    if n > 0 {
      assert Nulls(n)[..n - 1] == Nulls(n - 1);
      OccupantsOfNulls(n - 1);
    }
  }

  /** A slot array holds as many items as it has occupied slots; all of them iff it is full. */
  lemma {:induction false} OccupantsFull(items: Slots)
    ensures |Occupants(items)| <= |items|
    ensures |Occupants(items)| == |items| <==> forall j :: 0 <= j < |items| ==> items[j].Some?
    ensures Occupants(items) == [] <==> forall j :: 0 <= j < |items| ==> items[j] == None
  {
    if items != [] {
      var n := |items|;
      var front := items[..n - 1];
      OccupantsFull(front);
      assert Occupants(items) == Occupants(front) + OptItems(items[n - 1]);
      assert forall j :: 0 <= j < n - 1 ==> front[j] == items[j];
      if |Occupants(items)| == |items| {
        assert |Occupants(front)| == n - 1 && items[n - 1].Some?;
      }
    }
  }

  /** Overwriting one slot swaps the item it held (if any) for the new one (if any). */
  lemma {:induction false} OccupantsUpdate(items: Slots, j: nat, v: Option<Item>)
    requires j < |items|
    ensures multiset(Occupants(items[j := v])) + multiset(OptItems(items[j]))
         == multiset(Occupants(items)) + multiset(OptItems(v))
  {
    var n := |items|;
    var w := items[j := v];
    var p := items[..n - 1];
    assert Occupants(items) == Occupants(p) + OptItems(items[n - 1]);
    if j == n - 1 {
      assert w[..n - 1] == p;
      assert Occupants(w) == Occupants(p) + OptItems(v);
    } else {
      assert w[..n - 1] == p[j := v];
      assert Occupants(w) == Occupants(p[j := v]) + OptItems(items[n - 1]);
      OccupantsUpdate(p, j, v);
      assert p[j] == items[j];
      MultisetShift(multiset(Occupants(p[j := v])), multiset(OptItems(items[n - 1])),
        multiset(Occupants(p)), multiset(OptItems(items[j])), multiset(OptItems(v)));
    }
  }

  /** Replacing the shelf at position `i` by one with the same id swaps their contributions. */
  lemma BoardItemsUpdate(b: seq<Shelf>, i: nat, sh: Shelf, skip: Option<int>)
    requires i < |b| && sh.id == b[i].id
    ensures multiset(BoardItems(b[i := sh], skip)) + multiset(Contribution(b[i], skip))
         == multiset(BoardItems(b, skip)) + multiset(Contribution(sh, skip))
  {
    var pre, post := b[..i], b[i + 1..];
    assert b == pre + [b[i]] + post;
    assert b[i := sh] == pre + [sh] + post;
    BoardItemsAround(pre, b[i], post, skip);
    BoardItemsAround(pre, sh, post, skip);
    MiddleSwap(BoardItems(pre, skip), Contribution(b[i], skip), Contribution(sh, skip), BoardItems(post, skip));
  }

  lemma MiddleSwap(a: seq<Item>, x: seq<Item>, y: seq<Item>, c: seq<Item>)
    ensures multiset(a + y + c) + multiset(x) == multiset(a + x + c) + multiset(y)
  {
  }

  /** The view of a board split around one shelf. */
  lemma BoardItemsAround(pre: seq<Shelf>, sh: Shelf, post: seq<Shelf>, skip: Option<int>)
    ensures BoardItems(pre + [sh] + post, skip) == BoardItems(pre, skip) + Contribution(sh, skip) + BoardItems(post, skip)
  {
    BoardItemsConcat(pre + [sh], post, skip);
    BoardItemsConcat(pre, [sh], skip);
    assert BoardItems([sh], skip) == Contribution(sh, skip) by {
      assert [sh][..0] == [];
    }
  }

  lemma {:induction false} BoardItemsConcat(x: seq<Shelf>, y: seq<Shelf>, skip: Option<int>)
    ensures BoardItems(x + y, skip) == BoardItems(x, skip) + BoardItems(y, skip)
  {
    if y == [] {
      assert x + y == x;
    } else {
      var m := |y|;
      var a, c, last := BoardItems(x, skip), BoardItems(y[..m - 1], skip), Contribution(y[m - 1], skip);
      calc {
        BoardItems(x + y, skip);
        { assert (x + y)[..|x + y| - 1] == x + y[..m - 1];
          assert (x + y)[|x + y| - 1] == y[m - 1]; }
        BoardItems(x + y[..m - 1], skip) + last;
        { BoardItemsConcat(x, y[..m - 1], skip); }
        a + c + last;
        { assert a + c + last == a + (c + last); }
        a + (c + last);
      }
    }
  }

  /** Setting one slot of a board: the board view gains `v` and loses the previous occupant,
      unless the shelf is the one the view leaves out. */
  lemma SetSlotItems(b: seq<Shelf>, i: nat, j: nat, v: Option<Item>, skip: Option<int>)
    requires i < |b| && j < |b[i].items|
    ensures skip != Some(b[i].id) ==>
      multiset(BoardItems(SetSlot(b, i, j, v), skip)) + multiset(OptItems(b[i].items[j]))
        == multiset(BoardItems(b, skip)) + multiset(OptItems(v))
    ensures skip == Some(b[i].id) ==> BoardItems(SetSlot(b, i, j, v), skip) == BoardItems(b, skip)
  {
    var sh := b[i].(items := b[i].items[j := v]);
    if skip == Some(b[i].id) {
      BoardItemsSkipUpdate(b, i, sh, skip);
    } else {
      BoardItemsUpdate(b, i, sh, skip);
      OccupantsUpdate(b[i].items, j, v);
      MultisetChain(multiset(BoardItems(SetSlot(b, i, j, v), skip)), multiset(Occupants(b[i].items)),
        multiset(BoardItems(b, skip)), multiset(Occupants(sh.items)),
        multiset(OptItems(b[i].items[j])), multiset(OptItems(v)));
    }
  }

  lemma {:induction false} BoardItemsSkipUpdate(b: seq<Shelf>, i: nat, sh: Shelf, skip: Option<int>)
    requires i < |b| && sh.id == b[i].id && skip == Some(sh.id)
    ensures BoardItems(b[i := sh], skip) == BoardItems(b, skip)
  {
    var n := |b|;
    var c := b[i := sh];
    var p := b[..n - 1];
    assert BoardItems(b, skip) == BoardItems(p, skip) + Contribution(b[n - 1], skip);
    if i == n - 1 {
      assert c[..n - 1] == p;
      assert BoardItems(c, skip) == BoardItems(p, skip) + Contribution(sh, skip);
    } else {
      assert c[..n - 1] == p[i := sh];
      assert BoardItems(c, skip) == BoardItems(p[i := sh], skip) + Contribution(b[n - 1], skip);
      BoardItemsSkipUpdate(p, i, sh, skip);
    }
  }

  /** On a well-formed board the shelf with id `id` sits at position `id`. */
  lemma {:induction false} FindWellFormed(b: seq<Shelf>, id: int)
    requires WellFormed(b)
    ensures FindShelf(b, id) == if 0 <= id < |b| then Some(id) else None
  {
    if 0 <= id < |b| {
      assert b[id].id == id;
    }
  }

  /** A board view is empty iff every shelf it looks at is empty. */
  lemma {:induction false} BoardItemsEmpty(b: seq<Shelf>, skip: Option<int>)
    ensures BoardItems(b, skip) == [] <==>
      forall i :: 0 <= i < |b| && skip != Some(b[i].id) ==> IsEmptyShelf(b[i])
  {
    if b != [] {
      var n := |b|;
      var front := b[..n - 1];
      var last := b[n - 1];
      assert front + [last] == b;
      BoardItemsEmpty(front, skip);
      assert BoardItems(b, skip) == [] <==> BoardItems(front, skip) == [] && Contribution(last, skip) == [] by {
        assert BoardItems(b, skip) == BoardItems(front, skip) + Contribution(last, skip);
      }
      assert Contribution(last, skip) == [] <==> skip == Some(last.id) || IsEmptyShelf(last) by {
        OccupantsFull(last.items);
      }
      ShelvesEmptySnoc(front, last, skip);
    }
  }

  lemma ShelvesEmptySnoc(front: seq<Shelf>, last: Shelf, skip: Option<int>)
    ensures (forall i :: 0 <= i < |front + [last]| && skip != Some((front + [last])[i].id) ==> IsEmptyShelf((front + [last])[i])) <==>
      (forall i :: 0 <= i < |front| && skip != Some(front[i].id) ==> IsEmptyShelf(front[i])) &&
      (skip == Some(last.id) || IsEmptyShelf(last))
  {
    var b := front + [last];
    if forall i :: 0 <= i < |b| && skip != Some(b[i].id) ==> IsEmptyShelf(b[i]) {
      assert b[|front|] == last;
      forall i | 0 <= i < |front| && skip != Some(front[i].id) ensures IsEmptyShelf(front[i]) {
        assert b[i] == front[i];
      }
    }
  }
}
