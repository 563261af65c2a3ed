/**
 * The per-play session state `GameState` (components/Game.tsx:52-62) and the
 * status recheck `checkStatus` (components/Game.tsx:553-579).
 */
module Session {
  import opened Wrappers
  import opened Board

  datatype Status = Playing | Won | Lost

  /** Why a session was lost: the messages passed to `setFailReason`. */
  datatype Reason = OutOfMoves | TimeUp | BombTimerRanOut | FragileBroke(kind: Kind)

  /**
   * `GameState`, plus `failReason`, which the component keeps in a state variable
   * of its own and sets next to every loss.
   */
  datatype Session = Session(
    shelves: seq<Shelf>,
    movesLeft: Option<int>,
    timeLeft: Option<int>,
    bombsLeft: int,
    bombTimer: Option<int>,
    frozenShelves: seq<int>,
    lockedShelf: bool,
    fragileShelfId: Option<int>,
    status: Status,
    failReason: Option<Reason>)

  /** What a status recheck decides, with the loss message it sets. */
  datatype Verdict = Verdict(status: Status, reason: Option<Reason>)

  /** `shelves.every(...)`: the locked shelf counts when it is open, every other shelf when it is empty. */
  function AllEmpty(lockedShelfId: Option<int>, shelves: seq<Shelf>, locked: bool): (r: bool)
    ensures r <==> forall i :: 0 <= i < |shelves| ==>
      if lockedShelfId == Some(shelves[i].id) then !locked else IsEmptyShelf(shelves[i])
  {
    if shelves == [] then true
    else
      var s := shelves[0];
      ((lockedShelfId == Some(s.id) && !locked) ||
       (lockedShelfId != Some(s.id) && forall j :: 0 <= j < |s.items| ==> s.items[j] == None)) &&
      AllEmpty(lockedShelfId, shelves[1..], locked)
  }

  /**
   * `checkStatus`: a win (every shelf but the locked one empty and the lock open) is decided
   * before the two losses, moves before time.
   */
  function CheckStatus(lockedShelfId: Option<int>, shelves: seq<Shelf>, moves: Option<int>,
                       timeLeft: Option<int>, locked: bool): (v: Verdict)
    ensures v.status == Won <==> !locked && BoardItems(shelves, lockedShelfId) == []
    ensures v.status == Lost <==>
      !(!locked && BoardItems(shelves, lockedShelfId) == []) &&
      ((moves.Some? && moves.value <= 0) || (timeLeft.Some? && timeLeft.value <= 0))
    ensures v.status == Lost ==>
      v.reason == Some(if moves.Some? && moves.value <= 0 then OutOfMoves else TimeUp)
    ensures v.status != Lost ==> v.reason == None
  {
    BoardItemsEmpty(shelves, lockedShelfId);
    if AllEmpty(lockedShelfId, shelves, locked) && !locked then Verdict(Won, None)
    else if moves.Some? && moves.value <= 0 then Verdict(Lost, Some(OutOfMoves))
    else if timeLeft.Some? && timeLeft.value <= 0 then Verdict(Lost, Some(TimeUp))
    else Verdict(Playing, None)
  }

  /** The update a recheck queues, applied after the update that triggered it. */
  function ApplyVerdict(s: Session, v: Verdict): (r: Session)
    ensures r.status == (if v.status == Playing then s.status else v.status)
    ensures r.failReason == (if v.status == Lost then v.reason else s.failReason)
    ensures r.(status := s.status, failReason := s.failReason) == s
  {
    match v.status
    case Won => s.(status := Won)
    case Lost => s.(status := Lost, failReason := v.reason)
    case Playing => s
  }

  /** With no locked shelf a session is won exactly when not one item is left on the board. */
  lemma WonIffBoardEmpty(shelves: seq<Shelf>, moves: Option<int>, timeLeft: Option<int>)
    ensures CheckStatus(None, shelves, moves, timeLeft, false).status == Won <==> Occupied(shelves) == 0
  {
  }

  /** A recheck with a move budget already at zero or below loses unless the board is won. */
  lemma ExhaustedMovesLose(lockedShelfId: Option<int>, shelves: seq<Shelf>, m: int, timeLeft: Option<int>, locked: bool)
    requires m <= 0
    ensures CheckStatus(lockedShelfId, shelves, Some(m), timeLeft, locked).status != Playing
    ensures CheckStatus(lockedShelfId, shelves, Some(m), timeLeft, locked).status == Lost <==>
      locked || BoardItems(shelves, lockedShelfId) != []
  {
  }
}
