/**
 * What an accepted drop does to the board and the session: conservation of items and
 * uids, exactly two slots written, the clearing of a shelf full of one kind and its side
 * effects, the fragile countdown, and the status the queued recheck leaves.
 */
module MoveLaws {
  import opened Wrappers
  import opened Board
  import opened Levels
  import opened Session
  import opened Moves

  /** The board a drop writes before any clearing. */
  function MovedBoard(level: LevelConfig, s: Session, d: Drag, target: Option<int>): seq<Shelf>
    requires WellFormed(s.shelves) && Holds(s, d) && !Rejected(level, s, d, target)
  {
    var l := Land(level, s, d, target).value;
    Moved(s, d, l, Carried(level, s, d, l.to))
  }

  /** Swapping one item for another with the same uid keeps the board's uids. */
  lemma SwapKeepsUids(ys: seq<Item>, xs: seq<Item>, a: Item, b: Item)
    requires multiset(ys) + multiset{a} == multiset(xs) + multiset{b} && a.uid == b.uid
    ensures multiset(Project(ys, UidOf)) == multiset(Project(xs, UidOf))
  {
    assert multiset(ys + [a]) == multiset(xs + [b]);
    ProjectPermutation(ys + [a], xs + [b], UidOf);
    ProjectConcat(ys, [a], UidOf);
    ProjectConcat(xs, [b], UidOf);
    assert Project([a], UidOf) == [a.uid] && Project([b], UidOf) == [a.uid];
    MultisetCancel(multiset(Project(ys, UidOf)), multiset(Project(xs, UidOf)), a.uid);
  }

  lemma SwapKeepsLength(ys: seq<Item>, xs: seq<Item>, a: Item, b: Item)
    requires multiset(ys) + multiset{a} == multiset(xs) + multiset{b}
    ensures |ys| == |xs|
  {
    assert |multiset(ys) + multiset{a}| == |multiset(xs) + multiset{b}|;
  }

  lemma RemovalLength(a: seq<Item>, c: seq<Item>, b: seq<Item>)
    requires multiset(a) + multiset(c) == multiset(b)
    ensures |a| + |c| == |b|
  {
    assert |multiset(a) + multiset(c)| == |multiset(b)|;
  }

  /** Removing items keeps uids distinct. */
  lemma RemovalKeepsUnique(a: seq<Item>, c: seq<Item>, b: seq<Item>)
    requires multiset(a) + multiset(c) == multiset(b) && UidsUnique(b)
    ensures UidsUnique(a)
  {
    assert multiset(a + c) == multiset(b);
    ProjectPermutation(a + c, b, UidOf);
    ProjectConcat(a, c, UidOf);
    forall u ensures multiset(Project(a, UidOf))[u] <= 1 {
      assert multiset(Project(a + c, UidOf))[u] == multiset(Project(a, UidOf))[u] + multiset(Project(c, UidOf))[u];
    }
  }

  /** Emptying one slot and filling an empty slot of another shelf swaps one item for another. */
  lemma TwoWrites(b: seq<Shelf>, f: nat, fs: nat, t: nat, ts: nat, a: Item, x: Item)
    requires f < |b| && fs < |b[f].items| && t < |b| && ts < |b[t].items| && f != t
    requires b[f].items[fs] == Some(a) && b[t].items[ts] == None
    ensures multiset(BoardItems(SetSlot(SetSlot(b, f, fs, None), t, ts, Some(x)), None)) + multiset{a}
         == multiset(BoardItems(b, None)) + multiset{x}
  {
    var b1 := SetSlot(b, f, fs, None);
    var b2 := SetSlot(b1, t, ts, Some(x));
    SetSlotItems(b, f, fs, None, None);
    assert b1[t].items[ts] == None;
    SetSlotItems(b1, t, ts, Some(x), None);
    var m0, m1, m2 := multiset(BoardItems(b, None)), multiset(BoardItems(b1, None)), multiset(BoardItems(b2, None));
    assert m1 + multiset{a} == m0 by {
      assert OptItems(b[f].items[fs]) == [a] && OptItems(None) == [];
    }
    assert m2 == m1 + multiset{x} by {
      assert OptItems(b1[t].items[ts]) == [] && OptItems(Some(x)) == [x];
    }
    MultisetTransfer(m0, m1, m2, multiset{a}, multiset{x});
  }

  lemma MultisetTransfer<T>(m0: multiset<T>, m1: multiset<T>, m2: multiset<T>, out: multiset<T>, into: multiset<T>)
    requires m1 + out == m0 && m2 == m1 + into
    ensures m2 + out == m0 + into
  {
    forall e ensures (m2 + out)[e] == (m0 + into)[e] {
      assert (m1 + out)[e] == m0[e];
    }
  }

  /** The two writes: the board loses the dragged item and gains it as carried. */
  lemma MovedItems(level: LevelConfig, s: Session, d: Drag, target: Option<int>)
    requires WellFormed(s.shelves) && Holds(s, d) && !Rejected(level, s, d, target)
    ensures multiset(BoardItems(MovedBoard(level, s, d, target), None)) + multiset{d.item}
         == multiset(BoardItems(s.shelves, None)) + multiset{Carried(level, s, d, target.value)}
  {
    var l := Land(level, s, d, target).value;
    TwoWrites(s.shelves, d.fromShelfId, d.fromSlotIndex, l.to, l.slot, d.item, Carried(level, s, d, l.to));
  }

  /** Clearing a full shelf takes all of its `capacity` items off the board. */
  lemma ClearedItems(b: seq<Shelf>, t: nat)
    requires WellFormed(b) && t < |b| && IsFull(b[t])
    ensures multiset(BoardItems(b[t := b[t].(items := Nulls(b[t].capacity))], None)) + multiset(Occupants(b[t].items))
         == multiset(BoardItems(b, None))
    ensures |Occupants(b[t].items)| == b[t].capacity
  {
    var sh := b[t].(items := Nulls(b[t].capacity));
    BoardItemsUpdate(b, t, sh, None);
    OccupantsOfNulls(b[t].capacity);
    OccupantsFull(b[t].items);
  }

  /** The board after the drop: the written board, with the target emptied when it clears. */
  lemma DropBoard(level: LevelConfig, s: Session, d: Drag, target: Option<int>)
    requires WellFormed(s.shelves) && Holds(s, d) && !Rejected(level, s, d, target)
    ensures var t := target.value;
      var moved := MovedBoard(level, s, d, target);
      WellFormed(moved) && t < |moved| && moved[t].capacity == s.shelves[t].capacity &&
      Drop(level, s, d, target).shelves ==
        if Clears(moved[t]) then moved[t := moved[t].(items := Nulls(moved[t].capacity))] else moved
  {
  }

  /**
   * A move that clears nothing keeps every item on the board, the moved one with its new
   * counter, so the occupied-slot count stays the same.
   */
  lemma DropKeepsItems(level: LevelConfig, s: Session, d: Drag, target: Option<int>)
    requires WellFormed(s.shelves) && Holds(s, d) && !Rejected(level, s, d, target)
    requires !Clears(MovedBoard(level, s, d, target)[target.value])
    ensures multiset(BoardItems(Drop(level, s, d, target).shelves, None)) + multiset{d.item}
         == multiset(BoardItems(s.shelves, None)) + multiset{Carried(level, s, d, target.value)}
    ensures Occupied(Drop(level, s, d, target).shelves) == Occupied(s.shelves)
  {
    var moved := MovedBoard(level, s, d, target);
    DropBoard(level, s, d, target);
    MovedItems(level, s, d, target);
    SwapKeepsLength(BoardItems(moved, None), BoardItems(s.shelves, None), d.item, Carried(level, s, d, target.value));
  }

  /** A move that clears its target takes exactly the target's capacity of items off the board. */
  lemma DropClearsCapacity(level: LevelConfig, s: Session, d: Drag, target: Option<int>)
    requires WellFormed(s.shelves) && Holds(s, d) && !Rejected(level, s, d, target)
    requires Clears(MovedBoard(level, s, d, target)[target.value])
    ensures Occupied(Drop(level, s, d, target).shelves) + s.shelves[target.value].capacity == Occupied(s.shelves)
  {
    var t := target.value;
    var moved := MovedBoard(level, s, d, target);
    var rb := Drop(level, s, d, target).shelves;
    DropBoard(level, s, d, target);
    MovedItems(level, s, d, target);
    ClearedItems(moved, t);
    SwapKeepsLength(BoardItems(moved, None), BoardItems(s.shelves, None), d.item, Carried(level, s, d, t));
    RemovalLength(BoardItems(rb, None), Occupants(moved[t].items), BoardItems(moved, None));
  }

  /** No move duplicates a uid. */
  lemma DropKeepsUidsUnique(level: LevelConfig, s: Session, d: Drag, target: Option<int>)
    requires WellFormed(s.shelves) && Holds(s, d) && UidsUnique(BoardItems(s.shelves, None))
    ensures UidsUnique(BoardItems(Drop(level, s, d, target).shelves, None))
  {
    if !Rejected(level, s, d, target) {
      var t := target.value;
      var moved := MovedBoard(level, s, d, target);
      var rb := Drop(level, s, d, target).shelves;
      DropBoard(level, s, d, target);
      MovedItems(level, s, d, target);
      SwapKeepsUids(BoardItems(moved, None), BoardItems(s.shelves, None), d.item, Carried(level, s, d, t));
      if Clears(moved[t]) {
        ClearedItems(moved, t);
        RemovalKeepsUnique(BoardItems(rb, None), Occupants(moved[t].items), BoardItems(moved, None));
      }
    }
  }

  /**
   * An accepted move writes two slots: the source slot becomes empty and the target's lowest
   * empty slot takes the item as carried. Every other slot keeps its content, and so does
   * the target shelf unless it was cleared, in which case it is entirely empty.
   */
  lemma DropWritesTwoSlots(level: LevelConfig, s: Session, d: Drag, target: Option<int>)
    requires WellFormed(s.shelves) && Holds(s, d) && !Rejected(level, s, d, target)
    ensures var t := target.value;
      var l := Land(level, s, d, target).value;
      var moved := MovedBoard(level, s, d, target);
      var r := Drop(level, s, d, target);
      r.shelves[d.fromShelfId].items[d.fromSlotIndex] == None &&
      (forall j :: 0 <= j < l.slot ==> s.shelves[t].items[j].Some?) && s.shelves[t].items[l.slot] == None &&
      (!Clears(moved[t]) ==> r.shelves[t].items[l.slot] == Some(Carried(level, s, d, t))) &&
      (Clears(moved[t]) ==> IsEmptyShelf(r.shelves[t])) &&
      (forall i, j :: 0 <= i < |s.shelves| && 0 <= j < |s.shelves[i].items| &&
         (i, j) != (d.fromShelfId, d.fromSlotIndex) && (i, j) != (t, l.slot) &&
         !(i == t && Clears(moved[t]))
         ==> r.shelves[i].items[j] == s.shelves[i].items[j])
  {
    var t := target.value;
    var l := Land(level, s, d, target).value;
    var x := Carried(level, s, d, t);
    var moved := MovedBoard(level, s, d, target);
    var r := Drop(level, s, d, target);
    var clears := Clears(moved[t]);
    assert r.shelves == if clears then moved[t := moved[t].(items := Nulls(moved[t].capacity))] else moved;
    SlotWrites(s.shelves, d.fromShelfId, d.fromSlotIndex, t, l.slot, x, clears, r.shelves);
  }

  /** The two writes, then possibly the clear of the target shelf, leave every other slot alone. */
  lemma SlotWrites(b: seq<Shelf>, f: nat, fs: nat, t: nat, ts: nat, x: Item, clears: bool, out: seq<Shelf>)
    requires f < |b| && fs < |b[f].items| && t < |b| && ts < |b[t].items| && f != t
    requires |b[t].items| == b[t].capacity
    requires var moved := SetSlot(SetSlot(b, f, fs, None), t, ts, Some(x));
      out == if clears then moved[t := moved[t].(items := Nulls(moved[t].capacity))] else moved
    ensures out[f].items[fs] == None
    ensures !clears ==> out[t].items[ts] == Some(x)
    ensures clears ==> IsEmptyShelf(out[t])
    ensures forall i, j :: 0 <= i < |b| && 0 <= j < |b[i].items| &&
              (i, j) != (f, fs) && (i, j) != (t, ts) && !(i == t && clears)
              ==> out[i].items[j] == b[i].items[j]
  {
  }

  /**
   * Clearing happens exactly when the target ends up full of one kind, and its side
   * effect follows the kind: ice cream freezes the shelf (with its constraint on), bombs
   * count down by the shelf's capacity, keys open the lock (with their constraint on).
   * A target that does not clear, full or not, is left as written.
   */
  lemma DropClearing(level: LevelConfig, s: Session, d: Drag, target: Option<int>)
    requires WellFormed(s.shelves) && Holds(s, d) && !Rejected(level, s, d, target)
    ensures var t := target.value;
      var sh := MovedBoard(level, s, d, target)[t];
      var r := Drop(level, s, d, target);
      (Clears(sh) ==>
        r.frozenShelves == (if ClearedKind(sh) == IceCream && level.iceCreamConstraint then s.frozenShelves + [t] else s.frozenShelves) &&
        r.bombsLeft == (if ClearedKind(sh) == Bomb then s.bombsLeft - s.shelves[t].capacity else s.bombsLeft) &&
        r.lockedShelf == (if ClearedKind(sh) == Key && level.keyConstraintActive then false else s.lockedShelf)) &&
      (!Clears(sh) ==>
        r.shelves[t] == sh && r.frozenShelves == s.frozenShelves && r.bombsLeft == s.bombsLeft &&
        r.lockedShelf == s.lockedShelf)
  {
    var t := target.value;
    var moved := MovedBoard(level, s, d, target);
    assert moved[t].id == t;
  }

  /**
   * The status an accepted move leaves in a playing session: won exactly when the board the
   * recheck sees is empty outside the locked shelf and the lock is open; otherwise lost when
   * the item broke, the move budget has run out or the time has; otherwise still playing.
   * The message: a loss the recheck reports (moves before time) replaces the break message,
   * which otherwise stays, as does the session's earlier message when the item did not break.
   */
  lemma DropStatus(level: LevelConfig, s: Session, d: Drag, target: Option<int>)
    requires WellFormed(s.shelves) && Holds(s, d) && !Rejected(level, s, d, target) && s.status == Playing
    ensures var r := Drop(level, s, d, target);
      var won := !r.lockedShelf && BoardItems(r.shelves, level.lockedShelfId) == [];
      (r.status == Won <==> won) &&
      (r.status == Lost <==> !won && (Breaks(level, s, d, target.value) ||
                                     (r.movesLeft.Some? && r.movesLeft.value <= 0) ||
                                     (r.timeLeft.Some? && r.timeLeft.value <= 0)))
    ensures var r := Drop(level, s, d, target);
      var won := !r.lockedShelf && BoardItems(r.shelves, level.lockedShelfId) == [];
      var movesOut := r.movesLeft.Some? && r.movesLeft.value <= 0;
      var timeOut := r.timeLeft.Some? && r.timeLeft.value <= 0;
      r.failReason ==
        if !won && (movesOut || timeOut) then Some(if movesOut then OutOfMoves else TimeUp)
        else if Breaks(level, s, d, target.value) then Some(FragileBroke(d.item.kind))
        else s.failReason
  {
  }

  /**
   * The fragile countdown, with the constraint on: a move that leaves or enters the fragile
   * shelf starts an item's counter at 2, and it then breaks on exactly the second move after
   * that, wherever those two moves go.
   */
  lemma FragileCountdown(level: LevelConfig, s1: Session, d1: Drag, to1: int,
                         s2: Session, d2: Drag, to2: int, s3: Session, d3: Drag, to3: int)
    requires level.fragileShelfActive && d1.item.fragileMoves == None
    requires s1.fragileShelfId == Some(d1.fromShelfId) || s1.fragileShelfId == Some(to1)
    requires d2.item == Carried(level, s1, d1, to1) && d3.item == Carried(level, s2, d2, to2)
    ensures Carried(level, s1, d1, to1).fragileMoves == Some(2) && !Breaks(level, s1, d1, to1)
    ensures !Breaks(level, s2, d2, to2)
    ensures Breaks(level, s3, d3, to3)
  {
  }

  /** An item with no counter keeps none on a move that does not touch the fragile shelf. */
  lemma FragileUntouched(level: LevelConfig, s: Session, d: Drag, to: int)
    requires d.item.fragileMoves == None
    requires s.fragileShelfId != Some(d.fromShelfId) && s.fragileShelfId != Some(to)
    ensures Carried(level, s, d, to) == d.item && !Breaks(level, s, d, to)
  {
  }

  /**
   * The queued recheck comes after the main update: a move on which the item breaks but
   * that leaves the board won ends the session as won, with the break message left set and
   * the move not counted.
   */
  lemma BreakThenWin(level: LevelConfig, s: Session, d: Drag, target: Option<int>)
    requires WellFormed(s.shelves) && Holds(s, d) && !Rejected(level, s, d, target)
    requires Breaks(level, s, d, target.value)
    requires var r := Drop(level, s, d, target);
      !r.lockedShelf && BoardItems(r.shelves, level.lockedShelfId) == []
    ensures var r := Drop(level, s, d, target);
      r.status == Won && r.failReason == Some(FragileBroke(d.item.kind)) && r.movesLeft == s.movesLeft
  {
  }

  /** A fragile soda with one move left, and two more sodas on the next shelf. */
  const BrittleSoda: Item := Item(0, Soda, Some(1))

  const ScenarioStart: Session :=
    Session([Shelf(0, 3, [Some(BrittleSoda), None, None]),
             Shelf(1, 3, [Some(Item(1, Soda, None)), Some(Item(2, Soda, None)), None])],
            Some(10), Some(100), 0, None, [], false, Some(0), Playing, None)

  const ScenarioDrag: Drag := Drag(BrittleSoda, 0, 0)

  /** On level 6, moving the soda onto the next shelf is accepted and breaks it. */
  lemma ScenarioBreaks()
    ensures WellFormed(ScenarioStart.shelves) && Holds(ScenarioStart, ScenarioDrag)
    ensures Land(LevelFor(6), ScenarioStart, ScenarioDrag, Some(1)) == Some(Landing(1, 2))
    ensures !Rejected(LevelFor(6), ScenarioStart, ScenarioDrag, Some(1))
    ensures Breaks(LevelFor(6), ScenarioStart, ScenarioDrag, 1)
  {
    assert FirstNull(ScenarioStart.shelves[1].items) == Some(2);
  }

  /** The board after the two writes: the soda, now at 0, sits in the last slot of shelf 1. */
  const ScenarioMoved: seq<Shelf> :=
    [Shelf(0, 3, [None, None, None]),
     Shelf(1, 3, [Some(Item(1, Soda, None)), Some(Item(2, Soda, None)), Some(Item(0, Soda, Some(0)))])]

  lemma ScenarioWrites()
    requires Holds(ScenarioStart, ScenarioDrag)
    ensures Moved(ScenarioStart, ScenarioDrag, Landing(1, 2), Carried(LevelFor(6), ScenarioStart, ScenarioDrag, 1)) == ScenarioMoved
  {
    var x := Carried(LevelFor(6), ScenarioStart, ScenarioDrag, 1);
    assert x == Item(0, Soda, Some(0));
    var b := ScenarioStart.shelves;
    assert b[0].items[0 := None] == [None, None, None];
    var first := SetSlot(b, 0, 0, None);
    assert first == [Shelf(0, 3, [None, None, None]), b[1]];
    assert b[1].items[2 := Some(x)] == ScenarioMoved[1].items;
    assert SetSlot(first, 1, 2, Some(x)) == ScenarioMoved;
  }

  /** Shelf 1 is full of sodas, so it is cleared and nothing is left on the board. */
  lemma ScenarioSettles(status: Status, reason: Option<Reason>)
    ensures var r := Settled(LevelFor(6), ScenarioStart, ScenarioMoved, 1, status, reason);
      !r.lockedShelf && BoardItems(r.shelves, None) == []
  {
    assert Clears(ScenarioMoved[1]);
    var empty := ScenarioMoved[1 := ScenarioMoved[1].(items := Nulls(3))];
    assert Settled(LevelFor(6), ScenarioStart, ScenarioMoved, 1, status, reason).shelves == empty;
    assert empty[1].items == [None, None, None];
    BoardItemsEmpty(empty, None);
  }

  /** The move fills the next shelf with sodas, which clears it and leaves nothing on the board. */
  lemma ScenarioEmptiesBoard()
    requires WellFormed(ScenarioStart.shelves) && Holds(ScenarioStart, ScenarioDrag)
    requires Land(LevelFor(6), ScenarioStart, ScenarioDrag, Some(1)) == Some(Landing(1, 2))
    ensures var r := Drop(LevelFor(6), ScenarioStart, ScenarioDrag, Some(1));
      !r.lockedShelf && BoardItems(r.shelves, LevelFor(6).lockedShelfId) == []
  {
    assert LevelFor(6).lockedShelfId == None;
    var s := ScenarioStart;
    var d := ScenarioDrag;
    var x := Carried(LevelFor(6), s, d, 1);
    var status := if Breaks(LevelFor(6), s, d, 1) then Lost else s.status;
    var reason := if Breaks(LevelFor(6), s, d, 1) then Some(FragileBroke(x.kind)) else s.failReason;
    ScenarioWrites();
    ScenarioSettles(status, reason);
    assert Drop(LevelFor(6), s, d, Some(1)) == Settled(LevelFor(6), s, ScenarioMoved, 1, status, reason);
  }

  /** So the session is won although the item broke. */
  lemma BreakOnWinningMove()
    ensures WellFormed(ScenarioStart.shelves) && Holds(ScenarioStart, ScenarioDrag)
    ensures Breaks(LevelFor(6), ScenarioStart, ScenarioDrag, 1)
    ensures Drop(LevelFor(6), ScenarioStart, ScenarioDrag, Some(1)).status == Won
  {
    ScenarioBreaks();
    ScenarioEmptiesBoard();
    BreakThenWin(LevelFor(6), ScenarioStart, ScenarioDrag, Some(1));
  }
}
