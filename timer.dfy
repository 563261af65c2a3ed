/**
 * The once-a-second timer update (components/Game.tsx:766-810): the main timer, the bomb
 * fuse, the fuse reset once every bomb is cleared, and the status recheck it queues.
 */
module Timer {
  import opened Wrappers
  import opened Board
  import opened Levels
  import opened Session

  /** The main timer after one tick. */
  function TimeAfter(s: Session): Option<int>
  {
    if s.timeLeft.Some? then Some(s.timeLeft.value - 1) else None
  }

  /** The fuse burns while the level has bombs, some are left and the fuse is set. */
  predicate FuseBurns(level: LevelConfig, s: Session)
  {
    level.numBombs > 0 && s.bombsLeft > 0 && s.bombTimer.Some?
  }

  predicate TimeRunsOut(s: Session)
  {
    s.timeLeft.Some? && s.timeLeft.value - 1 <= 0
  }

  predicate FuseRunsOut(level: LevelConfig, s: Session)
  {
    FuseBurns(level, s) && s.bombTimer.value - 1 <= 0
  }

  /**
   * One tick. A session that is not playing is left alone. Otherwise the main timer and the
   * fuse both count down (the fuse even when the time has just run out), a cleared bomb set
   * forces a set fuse to 0, and either timer reaching 0 loses the session, the fuse's message
   * written last; without a loss the recheck queued with the new time comes after the update.
   */
  function Tick(level: LevelConfig, s: Session): (r: Session)
    ensures s.status != Playing ==> r == s
    ensures r.shelves == s.shelves && r.movesLeft == s.movesLeft && r.bombsLeft == s.bombsLeft
    ensures r.frozenShelves == s.frozenShelves && r.lockedShelf == s.lockedShelf && r.fragileShelfId == s.fragileShelfId
    ensures s.status == Playing ==> r.timeLeft == TimeAfter(s)
  {
    if s.status != Playing then s
    else
      var newTimeLeft := TimeAfter(s);
      var timeUp := TimeRunsOut(s);
      var fuse := if FuseBurns(level, s) then Some(s.bombTimer.value - 1) else s.bombTimer;
      var boom := FuseRunsOut(level, s);
      var newBombTimer := if s.bombsLeft == 0 && s.bombTimer.Some? && fuse != Some(0) then Some(0) else fuse;
      if timeUp || boom then
        s.(timeLeft := newTimeLeft, bombTimer := newBombTimer, status := Lost,
           failReason := if boom then Some(BombTimerRanOut) else Some(TimeUp))
      else
        ApplyVerdict(s.(timeLeft := newTimeLeft, bombTimer := newBombTimer),
                     CheckStatus(level.lockedShelfId, s.shelves, s.movesLeft, newTimeLeft, s.lockedShelf))
  }

  /**
   * The fuse after a tick of a playing session: one less while it burns, 0 once no bomb is
   * left, unchanged otherwise.
   */
  lemma TickFuse(level: LevelConfig, s: Session)
    requires s.status == Playing
    ensures Tick(level, s).bombTimer ==
      if FuseBurns(level, s) then Some(s.bombTimer.value - 1)
      else if s.bombsLeft == 0 && s.bombTimer.Some? then Some(0)
      else s.bombTimer
  {
  }

  /**
   * The outcomes of a tick: a timer running out loses the session, the fuse's message winning
   * when both run out at once, and a time loss still burns the fuse. Otherwise the queued
   * recheck decides with the new time, which has not run out: won exactly when the board is
   * cleared and the lock open, lost with the moves message exactly when not won and the moves
   * are used up, and the earlier message kept in every other case.
   */
  lemma TickLosses(level: LevelConfig, s: Session)
    requires s.status == Playing
    ensures TimeRunsOut(s) || FuseRunsOut(level, s) ==>
      Tick(level, s).status == Lost &&
      Tick(level, s).failReason == Some(if FuseRunsOut(level, s) then BombTimerRanOut else TimeUp)
    ensures TimeRunsOut(s) && FuseBurns(level, s) ==> Tick(level, s).bombTimer == Some(s.bombTimer.value - 1)
    ensures !TimeRunsOut(s) && !FuseRunsOut(level, s) ==>
      (Tick(level, s).status == Won <==> !s.lockedShelf && BoardItems(s.shelves, level.lockedShelfId) == [])
    ensures !TimeRunsOut(s) && !FuseRunsOut(level, s) ==>
      (Tick(level, s).status == Lost <==>
         !(!s.lockedShelf && BoardItems(s.shelves, level.lockedShelfId) == []) &&
         s.movesLeft.Some? && s.movesLeft.value <= 0)
    ensures !TimeRunsOut(s) && !FuseRunsOut(level, s) ==>
      Tick(level, s).failReason == if Tick(level, s).status == Lost then Some(OutOfMoves) else s.failReason
  {
  }

  /**
   * Once every bomb is cleared the fuse plays no part: the tick does what it would do with
   * no fuse at all, and a set fuse reads 0.
   */
  lemma ClearedFuseIsHarmless(level: LevelConfig, s: Session)
    requires s.bombsLeft == 0
    ensures Tick(level, s) ==
      Tick(level, s.(bombTimer := None)).(bombTimer := if s.status == Playing && s.bombTimer.Some? then Some(0) else s.bombTimer)
  {
    if s.status == Playing {
      var u := s.(bombTimer := None);
      assert !FuseBurns(level, s) && !FuseBurns(level, u);
      assert !FuseRunsOut(level, s) && !FuseRunsOut(level, u);
      assert TimeAfter(u) == TimeAfter(s) && TimeRunsOut(u) == TimeRunsOut(s);
    }
  }

  /** `n` ticks in a row. */
  function Ticks(level: LevelConfig, s: Session, n: nat): Session
    decreases n
  {
    if n == 0 then s else Ticks(level, Tick(level, s), n - 1)
  }

  /** A session that has ended stays as it is. */
  lemma {:induction false} EndedStaysEnded(level: LevelConfig, s: Session, n: nat)
    requires s.status != Playing
    ensures Ticks(level, s, n) == s
    decreases n
  {
    if n > 0 {
      EndedStaysEnded(level, Tick(level, s), n - 1);
    }
  }

  /** With `t` seconds on the clock a session has ended after at most `t` ticks. */
  lemma {:induction false} TimeLimitEnds(level: LevelConfig, s: Session, t: nat)
    requires s.timeLeft == Some(t) && t >= 1
    ensures Ticks(level, s, t).status != Playing
    decreases t
  {
    var r := Tick(level, s);
    if s.status != Playing {
      EndedStaysEnded(level, s, t);
    } else if r.status != Playing {
      EndedStaysEnded(level, r, t - 1);
    } else {
      assert r.timeLeft == Some(t - 1);
      TimeLimitEnds(level, r, t - 1);
    }
  }
}
