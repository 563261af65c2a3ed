/**
 * The move state machine: the drag-start guards (`handleDragStart`,
 * components/Game.tsx:583-604) and the drop (`handleDragEnd`,
 * components/Game.tsx:632-742), with the status recheck it queues.
 */
module Moves {
  import opened Wrappers
  import opened Board
  import opened Levels
  import opened Session

  /** The drag in progress: the item picked up and the slot it came from. */
  datatype Drag = Drag(item: Item, fromShelfId: int, fromSlotIndex: int)

  /**
   * `handleDragStart`: a drag starts only while the session is playing, never from the
   * locked shelf while the lock is on, and never from a frozen shelf.
   */
  function DragStart(level: LevelConfig, s: Session, item: Item, shelfId: int, slotIndex: int): (r: Option<Drag>)
    ensures r.Some? <==>
      s.status == Playing && !(level.lockedShelfId == Some(shelfId) && s.lockedShelf) && shelfId !in s.frozenShelves
    ensures r.Some? ==> r.value == Drag(item, shelfId, slotIndex)
  {
    if s.status != Playing then None
    else if level.lockedShelfId == Some(shelfId) && s.lockedShelf then None
    else if shelfId in s.frozenShelves then None
    else Some(Drag(item, shelfId, slotIndex))
  }

  /** The drag names the slot its item sits in: the board renders each item with its shelf id and slot index. */
  predicate Holds(s: Session, d: Drag)
  {
    0 <= d.fromShelfId < |s.shelves| && 0 <= d.fromSlotIndex < |s.shelves[d.fromShelfId].items| &&
    s.shelves[d.fromShelfId].items[d.fromSlotIndex] == Some(d.item)
  }

  /** Every slot of the shelf is taken. */
  predicate IsFull(sh: Shelf)
  {
    forall j :: 0 <= j < |sh.items| ==> sh.items[j].Some?
  }

  /**
   * When a drop changes nothing: no shelf under the pointer, a frozen target, the locked
   * shelf while the lock is on, the source shelf itself, an id naming no shelf, or a full target.
   */
  predicate Rejected(level: LevelConfig, s: Session, d: Drag, target: Option<int>)
  {
    target.None? ||
    target.value in s.frozenShelves ||
    (level.lockedShelfId == target && s.lockedShelf) ||
    d.fromShelfId == target.value ||
    !(0 <= d.fromShelfId < |s.shelves|) ||
    !(0 <= target.value < |s.shelves|) ||
    IsFull(s.shelves[target.value])
  }

  /** Where an accepted drop lands: the target shelf's position and its lowest empty slot. */
  datatype Landing = Landing(to: nat, slot: nat)

  /** The drop's checks, in the order `handleDragEnd` makes them. */
  function Land(level: LevelConfig, s: Session, d: Drag, target: Option<int>): (r: Option<Landing>)
    requires WellFormed(s.shelves)
    ensures r.None? <==> Rejected(level, s, d, target)
    ensures r.Some? ==> target == Some(r.value.to) && r.value.to < |s.shelves| && r.value.to != d.fromShelfId
    ensures r.Some? ==> r.value.slot < |s.shelves[r.value.to].items| && s.shelves[r.value.to].items[r.value.slot] == None
    ensures r.Some? ==> forall j :: 0 <= j < r.value.slot ==> s.shelves[r.value.to].items[j].Some?
  {
    if target.None? then None
    else
      var t := target.value;
      if t in s.frozenShelves then None
      else if level.lockedShelfId == Some(t) && s.lockedShelf then None
      else if d.fromShelfId == t then None
      else
        FindWellFormed(s.shelves, d.fromShelfId);
        FindWellFormed(s.shelves, t);
        match (FindShelf(s.shelves, d.fromShelfId), FindShelf(s.shelves, t))
        case (Some(_), Some(ti)) =>
          (match FirstNull(s.shelves[ti].items)
           case Some(j) => Some(Landing(ti, j))
           case None => None)
        case _ => None
  }

  /**
   * The fragile step: with the constraint on, an existing counter ticks down by one, and an
   * item without one gets 2 when it leaves or enters the fragile shelf.
   */
  function FragileAfter(level: LevelConfig, s: Session, d: Drag, to: int): Option<int>
  {
    if !level.fragileShelfActive then d.item.fragileMoves
    else if d.item.fragileMoves.Some? then Some(d.item.fragileMoves.value - 1)
    else if s.fragileShelfId == Some(d.fromShelfId) || s.fragileShelfId == Some(to) then Some(2)
    else None
  }

  /** The item as it is written into the target slot. */
  function Carried(level: LevelConfig, s: Session, d: Drag, to: int): Item
  {
    d.item.(fragileMoves := FragileAfter(level, s, d, to))
  }

  /** This move breaks the item: its counter reaches exactly 0. */
  predicate Breaks(level: LevelConfig, s: Session, d: Drag, to: int)
  {
    level.fragileShelfActive && FragileAfter(level, s, d, to) == Some(0)
  }

  /** The board right after the two writes: the source slot emptied, the landing slot filled. */
  function Moved(s: Session, d: Drag, l: Landing, x: Item): (r: seq<Shelf>)
    requires Holds(s, d) && l.to < |s.shelves| && l.slot < |s.shelves[l.to].items|
    ensures SameShape(r, s.shelves)
  {
    SetSlot(SetSlot(s.shelves, d.fromShelfId, d.fromSlotIndex, None), l.to, l.slot, Some(x))
  }

  /** The shelf is full of one kind: `isFull` and `isMatch`. */
  predicate Clears(sh: Shelf)
  {
    |sh.items| > 0 && sh.items[0].Some? &&
    forall j :: 0 <= j < |sh.items| ==> sh.items[j].Some? && sh.items[j].value.kind == sh.items[0].value.kind
  }

  /** The kind of a cleared shelf. */
  function ClearedKind(sh: Shelf): Kind
    requires Clears(sh)
  {
    sh.items[0].value.kind
  }

  /**
   * What follows the two writes: a target shelf full of one kind is cleared with its side
   * effect (frozen, bombs, lock), a set move budget drops by one unless the session has just
   * been lost, the main update installs the result, and the status recheck it queues comes last.
   */
  function Settled(level: LevelConfig, s: Session, moved: seq<Shelf>, to: nat, status: Status, reason: Option<Reason>): Session
    requires to < |moved| && 0 <= moved[to].capacity
  {
    var main := Cleared(level, s, moved, to, status, reason);
    ApplyVerdict(main, CheckStatus(level.lockedShelfId, main.shelves, main.movesLeft, s.timeLeft, main.lockedShelf))
  }

  /** The main update of the settling, before the queued recheck. */
  function Cleared(level: LevelConfig, s: Session, moved: seq<Shelf>, to: nat, status: Status, reason: Option<Reason>): Session
    requires to < |moved| && 0 <= moved[to].capacity
  {
    var sh := moved[to];
    var clears := Clears(sh);
    var frozen :=
      if clears && ClearedKind(sh) == IceCream && level.iceCreamConstraint then s.frozenShelves + [sh.id]
      else s.frozenShelves;
    var bombs := if clears && ClearedKind(sh) == Bomb then s.bombsLeft - sh.capacity else s.bombsLeft;
    var locked := if clears && ClearedKind(sh) == Key && level.keyConstraintActive then false else s.lockedShelf;
    var shelves := if clears then moved[to := sh.(items := Nulls(sh.capacity))] else moved;
    var moves := if s.movesLeft.Some? && status == Playing then Some(s.movesLeft.value - 1) else s.movesLeft;
    s.(shelves := shelves, movesLeft := moves, frozenShelves := frozen, lockedShelf := locked,
       bombsLeft := bombs, status := status, failReason := reason)
  }

  /**
   * What the settling keeps: the shape of the board, both timers and the fragile shelf; and
   * the one move it counts when the move has not already ended the session.
   */
  lemma SettledFacts(level: LevelConfig, s: Session, moved: seq<Shelf>, to: nat, status: Status, reason: Option<Reason>)
    requires to < |moved| && |moved[to].items| == moved[to].capacity
    ensures SameShape(Settled(level, s, moved, to, status, reason).shelves, moved)
    ensures Settled(level, s, moved, to, status, reason).timeLeft == s.timeLeft
    ensures Settled(level, s, moved, to, status, reason).bombTimer == s.bombTimer
    ensures Settled(level, s, moved, to, status, reason).fragileShelfId == s.fragileShelfId
    ensures Settled(level, s, moved, to, status, reason).movesLeft ==
      if s.movesLeft.Some? && status == Playing then Some(s.movesLeft.value - 1) else s.movesLeft
  {
  }

  /** Proof helper: equal shapes are transitive. */
  lemma SameShapeTrans(a: seq<Shelf>, b: seq<Shelf>, c: seq<Shelf>)
    requires SameShape(a, b) && SameShape(b, c)
    ensures SameShape(a, c)
  {
  }

  /**
   * `handleDragEnd` on the shelf under the pointer (`None` when there is none): the checks,
   * then the fragile step and the two writes, then the rest as `Settled` says.
   */
  function Drop(level: LevelConfig, s: Session, d: Drag, target: Option<int>): (r: Session)
    requires WellFormed(s.shelves) && Holds(s, d)
    ensures Rejected(level, s, d, target) ==> r == s
    ensures SameShape(r.shelves, s.shelves)
    ensures r.timeLeft == s.timeLeft && r.bombTimer == s.bombTimer && r.fragileShelfId == s.fragileShelfId
    ensures !Rejected(level, s, d, target) ==>
      r.movesLeft == if s.movesLeft.Some? && s.status == Playing && !Breaks(level, s, d, target.value)
                     then Some(s.movesLeft.value - 1) else s.movesLeft
  {
    match Land(level, s, d, target)
    case None => s
    case Some(l) =>
      var x := Carried(level, s, d, l.to);
      var broke := Breaks(level, s, d, l.to);
      var moved := Moved(s, d, l, x);
      var status := if broke then Lost else s.status;
      var reason := if broke then Some(FragileBroke(x.kind)) else s.failReason;
      SettledFacts(level, s, moved, l.to, status, reason);
      SameShapeTrans(Settled(level, s, moved, l.to, status, reason).shelves, moved, s.shelves);
      Settled(level, s, moved, l.to, status, reason)
  }

  /** `isFull`, then `isMatch` against the first item's kind. */
  method FullOfOneKind(sh: Shelf) returns (clears: bool, kind: Kind)
    requires |sh.items| > 0
    ensures clears == Clears(sh)
    ensures clears ==> kind == ClearedKind(sh)
  {
    var isFull := forall j :: 0 <= j < |sh.items| ==> sh.items[j].Some?;
    if !isFull {
      return false, Soda;
    }
    kind := sh.items[0].value.kind;
    clears := forall j :: 0 <= j < |sh.items| ==> sh.items[j].value.kind == kind;
  }

  /** Steps 2 to 5 of the handler on the board after the writes. */
  method SettleMove(level: LevelConfig, s: Session, shelves: seq<Shelf>, t: nat, status: Status, reason: Option<Reason>)
    returns (r: Session)
    requires t < |shelves| && 0 <= shelves[t].capacity && |shelves[t].items| > 0
    ensures r == Settled(level, s, shelves, t, status, reason)
  {
    ghost var moved := shelves;
    var shelves := shelves;
    var frozen := s.frozenShelves;
    var locked := s.lockedShelf;
    var moves := s.movesLeft;
    var bombs := s.bombsLeft;
    var isMatch, firstId := FullOfOneKind(shelves[t]);
    if isMatch {
      if firstId == IceCream && level.iceCreamConstraint {
        frozen := frozen + [shelves[t].id];
      }
      if firstId == Bomb {
        bombs := bombs - shelves[t].capacity;
      }
      if firstId == Key && level.keyConstraintActive {
        locked := false;
      }
      shelves := shelves[t := shelves[t].(items := Nulls(shelves[t].capacity))];
    }
    if moves.Some? && status == Playing {
      moves := Some(moves.value - 1);
    }
    var main := s.(shelves := shelves, movesLeft := moves, frozenShelves := frozen, lockedShelf := locked,
                   bombsLeft := bombs, status := status, failReason := reason);
    assert main == Cleared(level, s, moved, t, status, reason);
    r := ApplyVerdict(main, CheckStatus(level.lockedShelfId, shelves, moves, s.timeLeft, locked));
  }

  /** The handler's checks, each rejection an early return. */
  method CheckDrop(level: LevelConfig, s: Session, d: Drag, target: Option<int>) returns (l: Option<Landing>)
    requires WellFormed(s.shelves)
    ensures l == Land(level, s, d, target)
  {
    if target.None? {
      return None;
    }
    var targetId := target.value;
    var fromShelf := FindShelf(s.shelves, d.fromShelfId);
    var toShelf := FindShelf(s.shelves, targetId);
    if targetId in s.frozenShelves {
      return None;
    }
    if level.lockedShelfId == Some(targetId) && s.lockedShelf {
      return None;
    }
    if d.fromShelfId == targetId {
      return None;
    }
    FindWellFormed(s.shelves, d.fromShelfId);
    FindWellFormed(s.shelves, targetId);
    if fromShelf.None? || toShelf.None? {
      return None;
    }
    var t := toShelf.value;
    var finalSlotIndex := FirstNull(s.shelves[t].items);
    if finalSlotIndex.None? {
      return None;
    }
    return Some(Landing(t, finalSlotIndex.value));
  }

  /** The fragile step on the dragged item, and the loss when its counter reaches 0. */
  method FragileStep(level: LevelConfig, s: Session, d: Drag, to: int) returns (x: Item, status: Status, reason: Option<Reason>)
    ensures x == Carried(level, s, d, to)
    ensures status == if Breaks(level, s, d, to) then Lost else s.status
    ensures reason == if Breaks(level, s, d, to) then Some(FragileBroke(x.kind)) else s.failReason
  {
    x := d.item;
    status := s.status;
    reason := s.failReason;
    if level.fragileShelfActive {
      if x.fragileMoves.Some? {
        x := x.(fragileMoves := Some(x.fragileMoves.value - 1));
      } else if s.fragileShelfId == Some(d.fromShelfId) || s.fragileShelfId == Some(to) {
        x := x.(fragileMoves := Some(2));
      }
      if x.fragileMoves == Some(0) {
        reason := Some(FragileBroke(x.kind));
        status := Lost;
      }
    }
  }

  /**
   * The drop as the handler runs it: the checks, then the fragile step and the two slot
   * writes on a copy of the shelf list, then the rest.
   */
  method DropMove(level: LevelConfig, s: Session, d: Drag, target: Option<int>) returns (r: Session)
    requires WellFormed(s.shelves) && Holds(s, d)
    ensures r == Drop(level, s, d, target)
  {
    var landing := CheckDrop(level, s, d, target);
    if landing.None? {
      return s;
    }
    var t := landing.value.to;
    var x, status, reason := FragileStep(level, s, d, t);
    var shelves := SetSlot(s.shelves, d.fromShelfId, d.fromSlotIndex, None);
    shelves := SetSlot(shelves, t, landing.value.slot, Some(x));
    assert shelves == Moved(s, d, landing.value, x);
    r := SettleMove(level, s, shelves, t, status, reason);
  }
}
