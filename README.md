# Goods-sort game core in Dafny

This project models the rules engine of a browser goods-sorting puzzle, `components/Game.tsx`. The player drags items between shelves. A shelf that fills up with items of one kind is cleared, and a level is won once every shelf is empty. This is the part the model covers:

- **Level catalog.** `generateLevels` builds fifty level configurations from one set of defaults plus per-level adjustments:
  - a level without a move limit;
  - a bomb fuse;
  - ice creams that freeze their shelf;
  - a fragile shelf;
  - a key/lock constraint that is defined but switched off on every level;
  - mixed shelf sizes from level 8 on.
- **Board generator.** `handleStartGame` takes a life, then:
  - shapes the shelves;
  - builds the item pool (keys, bombs, ice creams, then standard items three of a kind at a time, up to a budget that keeps some slots free);
  - places the pool at random on the empty slots;
  - retries up to 100 times until `checkInitialSolvability` accepts the board, which means every standard kind occurs a multiple of three times outside the locked shelf.

  A failed generation gives the life back.
- **Move state machine.** It has three parts:
  - the three drag-start guards;
  - `handleDragEnd`: its six rejections, the fragile countdown, the two slot writes, the clearing of a full shelf of one kind and its side effect (freeze, bomb count, unlock), the move count, and the status recheck that call queues;
  - `checkStatus`: a win beats the two losses, and running out of moves is checked before running out of time.
- **Timer tick.** Once a second the tick counts down the main timer and the bomb fuse. It sets the fuse to 0 once every bomb is gone, and either timer reaching 0 ends the game.

## How the model is organised

| Module | File | What's in it |
|---|---|---|
| `Board` | `board.dfy` | Items, shelves and slots. Also `BoardItems`, the items of a board shelf by shelf (optionally skipping the locked shelf), and the multiset lemmas about slot writes. |
| `Levels` | `levels.dfy` | `LevelConfig` and the catalog. |
| `Solvability` | `solvability.dfy` | The solvability predicate, and the tally loop proved equal to it. |
| `Session` | `session.dfy` | `GameState` and `checkStatus`. |
| `Placement` | `placement.dfy` | Empty-slot listing, shuffles, placement and the retry loop. |
| `Generator` | `generator.dfy` | `handleStartGame`. |
| `Moves` | `moves.dfy` | The drag start and the drop. |
| `MoveLaws` | `move_laws.dfy` | Laws relating several drops, plus a concrete level-6 scenario. |
| `Timer` | `timer.dfy` | The tick. |

Each game-state change is a function from session to session. Where the component runs a loop or a sequence of early returns, a `method` reproduces it step by step, and its `ensures` proves it equal to the function. For example, `DropMove` equals `Drop` and `CheckInitialSolvability` equals `Solvable`.

React's queued state updates are made explicit. A handler's own update is applied first. The `setGameState` that `checkStatus` queues is applied after it (`Session.ApplyVerdict`).

Randomness is given as inputs:
- each shelf's mixed-size coin flip is a `caps: seq<bool>`;
- each shuffle is a list of picks, and `Placement.ShuffledReachesEveryPermutation` shows every order can be drawn.

The random uid strings are fresh numbers from a counter.

## Model

| member | source | states |
|---|---|---|
| Levels.GenerateLevels | components/Game.tsx:219-294 | Fifty configurations with ids 1 to 50; configuration k is the defaults with level k's adjustments (`LevelFor`). |
| Levels.CatalogConstraints | components/Game.tsx:243-289 | Level 2 has no move limit (that no other level lacks one is `CatalogLimits`). Level 4 alone has bombs (3, 15-second fuse). Level 5 alone has ice creams (6, freezing). Level 6 alone has a fragile shelf (shelf 0). |
| Levels.CatalogShape | components/Game.tsx:224-289 | A level is mixed exactly when its number is above 7; level 3 has 10 shelves, every other level 12. |
| Levels.CatalogKeyLockInactive | components/Game.tsx:239-240 | No level turns the key/lock constraint on or names a locked shelf. |
| Levels.CatalogLimits | components/Game.tsx:225-289 | Every level except level 2 has a move limit of at least 25, and every level has a time limit of at least 90 seconds. |
| Solvability.TallySlot | components/Game.tsx:319-321 | One slot adds one to its kind's count when it holds a standard item, and nothing otherwise; the map never holds a special kind. |
| Solvability.TallyShelf | components/Game.tsx:317-322 | The inner loop adds the standard items of one shelf to the counts. |
| Solvability.TallyUnlessLocked | components/Game.tsx:314-323 | A shelf adds its standard items unless it is the locked shelf, which adds nothing. |
| Solvability.AllTalliesDivisible | components/Game.tsx:325-330 | The loop over the tallied kinds returns true exactly when every count is a multiple of 3. |
| Solvability.CheckInitialSolvability | components/Game.tsx:311-332 | Tallying the standard items shelf by shelf, skipping the locked shelf, decides exactly `Solvable`. |
| Solvability.TalliesDecide | components/Game.tsx:314-330 | Once the tally covers the board, "all counts divisible by 3" holds exactly when every standard kind's count on the board is. |
| Solvability.SolvableIgnoresSpecials | components/Game.tsx:319 | Adding keys, bombs or ice creams anywhere never makes a solvable board unsolvable. |
| Session.AllEmpty | components/Game.tsx:556-559 | `every` holds exactly when the locked shelf is open and every other shelf is empty: the locked shelf counts exactly when the lock is open, every other shelf exactly when it is empty. |
| Session.CheckStatus | components/Game.tsx:553-579 | Won exactly when the lock is open and no item is left outside the locked shelf. Lost exactly when not won and the moves or the time have run out, with "out of moves" reported before "time up". Otherwise playing, and no message. |
| Session.ApplyVerdict | components/Game.tsx:561-575 | The queued update sets only the status, and the message on a loss; a playing verdict changes nothing. |
| Session.WonIffBoardEmpty | components/Game.tsx:556-564 | Without a locked shelf, a recheck reports a win exactly when no slot of the board is occupied. |
| Session.ExhaustedMovesLose | components/Game.tsx:561-571 | With no moves left, the recheck never reports playing, and reports a loss exactly when the board is not cleared. |
| Board.FindShelf | components/Game.tsx:634-635 | Returns the first shelf with the given id, or nothing exactly when no shelf has it. Also the locked-shelf search at 427. The placement search at 514 is modelled in `Placement.Place` by position, since on a well-formed board a shelf's id is its position. |
| Board.FirstNull | components/Game.tsx:660 | Returns the lowest empty slot, or nothing exactly when every slot is occupied. |
| Board.Nulls | components/Game.tsx:391 | n empty slots. Also the clearing at 718. |
| Moves.DragStart | components/Game.tsx:583-592 | A drag starts exactly when the session is playing, the source is not the locked shelf while locked, and the source shelf is not frozen. |
| Moves.Land | components/Game.tsx:632-662 | A drop is refused exactly in the six rejection cases (no target, frozen, locked, same shelf, unknown shelf, full). Otherwise it lands in the lowest empty slot of the target. |
| Moves.CheckDrop | components/Game.tsx:632-662 | The early-return sequence of the handler computes `Land`. |
| Moves.FragileStep | components/Game.tsx:669-683 | With the constraint on, an existing counter drops by one, and a new item gets 2 when it leaves or enters the fragile shelf. Reaching 0 loses the game with the item's kind as the reason. |
| Moves.FullOfOneKind | components/Game.tsx:693-698 | `isFull && isMatch` holds exactly when the shelf is full of a single kind, and that kind is returned. |
| Moves.SettledFacts | components/Game.tsx:689-738 | Clearing, counting and rechecking keep the board's shape, both timers and the fragile shelf. A move is counted unless the move already lost the game. |
| Moves.SettleMove | components/Game.tsx:689-738 | Steps 2 to 5 of the handler (clear with side effect, count the move, main update, recheck) equal `Settled`. |
| Moves.Drop | components/Game.tsx:632-739 | A rejected drop changes nothing. Every drop keeps the shelf shapes, both timers and the fragile shelf. An accepted drop from a playing session with a move limit counts one move unless the item broke. Otherwise the move count is unchanged. |
| Moves.DropMove | components/Game.tsx:632-739 | The handler as written — checks, fragile step, two writes on the copied shelf list, then settling — equals `Drop`. |
| MoveLaws.MovedItems | components/Game.tsx:686-687 | The two writes swap the dragged item for its carried copy: the board's item multiset loses one and gains the other. |
| MoveLaws.ClearedItems | components/Game.tsx:718 | Clearing a full shelf removes exactly its `capacity` items from the board. |
| MoveLaws.DropKeepsItems | components/Game.tsx:686-687 | A drop that clears nothing keeps every item (the dragged one as carried) and the occupied-slot count. |
| MoveLaws.DropClearsCapacity | components/Game.tsx:693-718 | A drop that clears its target lowers the occupied-slot count by exactly that shelf's capacity. |
| MoveLaws.DropKeepsUidsUnique | components/Game.tsx:686-718 | No drop duplicates an item uid. |
| MoveLaws.DropWritesTwoSlots | components/Game.tsx:658-718 | The source slot becomes empty. The carried item sits in the target's lowest empty slot, or the whole target is empty when it cleared. Every other slot is unchanged. |
| MoveLaws.DropClearing | components/Game.tsx:693-718 | Clearing ice cream freezes the target (when the constraint is on). Clearing bombs lowers the bomb count by the capacity. Clearing keys opens the lock (when the constraint is on). Without a clear, none of these changes. |
| MoveLaws.DropStatus | components/Game.tsx:669-738 | After an accepted drop from a playing session, it is won exactly when the board is cleared and the lock open. It is lost exactly when not won and the item broke or the moves or time ran out. The message is "out of moves", else "time up", when not won and a limit ran out; otherwise the broken item's kind when it broke; otherwise the previous message. |
| MoveLaws.FragileCountdown | components/Game.tsx:669-683 | An item that first touches the fragile shelf gets 2 and does not break. It survives the next move and breaks on the one after. |
| MoveLaws.FragileUntouched | components/Game.tsx:669-677 | An item without a counter that neither leaves nor enters the fragile shelf moves unchanged and cannot break. |
| MoveLaws.BreakThenWin | components/Game.tsx:679-738 | A breaking move that clears the board ends as won. The break message stays and no move is counted. |
| MoveLaws.BreakOnWinningMove | components/Game.tsx:669-738 | A concrete two-shelf board under level 6's rules where that happens. |
| Timer.Tick | components/Game.tsx:769-807 | A session that is not playing is left alone. A tick changes only the time, the fuse, the status and the message. The time drops by one when set. |
| Timer.TickFuse | components/Game.tsx:786-797 | The fuse drops by one while it burns. It reads 0 once no bomb is left. Otherwise it is unchanged. |
| Timer.TickLosses | components/Game.tsx:777-806 | Either timer reaching 0 loses the game, with the fuse's message when both do. A time loss still burns the fuse. Otherwise the recheck decides with the new time: won exactly when the lock is open and the board cleared, lost exactly when not won and the moves are used up, and then the message is "out of moves"; a playing tick keeps the message. |
| Timer.ClearedFuseIsHarmless | components/Game.tsx:786-797 | With every bomb cleared, a tick acts as if there were no fuse, apart from a set fuse reading 0. |
| Timer.EndedStaysEnded | components/Game.tsx:770 | Any number of ticks leave an ended session as it is. |
| Timer.TimeLimitEnds | components/Game.tsx:777-783 | A session with t seconds left has ended after t ticks. |
| Placement.Shuffled | components/Game.tsx:489-508 | A shuffle is a permutation of its input. |
| Placement.ShuffledReachesEveryPermutation | components/Game.tsx:489-508 | Every permutation is the outcome of some pick list. |
| Placement.NullSlotsFacts | components/Game.tsx:491-499 | The listed empty slots are exactly free slots, each listed once. Their number plus the occupied slots equals the total capacity. |
| Placement.CollectEmptySlots | components/Game.tsx:491-499 | The nested loop collecting `allAvailableSlots` computes `NullSlots`. |
| Placement.PlaceContents | components/Game.tsx:511-519 | Writing pool item k into slot k adds the pool to the board's items. |
| Placement.PlaceItems | components/Game.tsx:511-519 | The placement loop computes `Place`. |
| Placement.AttemptSolvable | components/Game.tsx:482-525 | When no empty slot is on the skipped shelf, no item sits outside it, and the pool is whole triples, every attempt passes the check. |
| Placement.Attempt | components/Game.tsx:488-525 | One pass of the loop body: it stops short exactly when there are fewer empty slots than pool items. Otherwise its board is `AttemptBoard` for that attempt's shuffles, holding the base plus the pool, and it passes exactly when that board is solvable. |
| Placement.PlaceWithRetries | components/Game.tsx:482-534 | Succeeds exactly when one of the first 100 attempts passes the check, and then the board is that of the first passing attempt. On success, the board is the base plus the whole pool and is solvable. With fewer empty slots than pool items it fails. Under the conditions of `AttemptSolvable` it succeeds. |
| Placement.AllAttemptsFail | components/Game.tsx:487-534 | When each of the 100 attempts fails, no attempt passes. |
| Placement.FirstAttemptPasses | components/Game.tsx:487-525 | When attempt n passes and none before it did, the loop's board is the first passing one. |
| Placement.NullSlotsCount | components/Game.tsx:453 | On a well-formed board, the total capacity is the number of empty slots plus the number of occupied ones. |
| Generator.IssueRun | components/Game.tsx:407-409 | Pushes `count` fresh items of one kind (none for a negative count) after the given ones; the counter advances by as many. Also covers the bomb and ice-cream loops at 441-449. |
| Generator.IssueLockedItems | components/Game.tsx:421-424 | Three fresh standard items, of the kinds the locked shelf is stocked with; the counter advances by 3. |
| Generator.IssueTriple | components/Game.tsx:474-476 | One pass of the inner loop pushes three fresh items of the given kind. |
| Generator.FillStandard | components/Game.tsx:471-479 | The outer loop appends the given number of standard items as whole triples, kinds cycling through the standard list. |
| Generator.ShapeShelves | components/Game.tsx:382-393 | The shaping loop gives shelf i id i and the fixed size, or 3 or 2 by coin flip on mixed levels; the locked shelf gets 3. All slots are empty. |
| Generator.TripleKindCycles | components/Game.tsx:471-479 | The t-th triple is of standard kind `t mod 6`. |
| Generator.TriplesCount | components/Game.tsx:471-479 | Whole triples hold every standard kind a multiple of 3 times and no special kind. |
| Generator.BudgetRoundsDown | components/Game.tsx:453-468 | The budget is 0 when nothing is left after the locked items, the margin and the specials. Otherwise it is that remainder rounded down to a multiple of 3. |
| Generator.PoolFacts | components/Game.tsx:439-479 | The pool holds 3 keys when the lock is on, the level's bombs and ice creams, and the standard budget. Every standard kind occurs a multiple of 3 times. |
| Generator.PoolFits | components/Game.tsx:453-468 | The pool exceeds the free slots exactly when the specials alone do. When standard items are placed, at least the margin of slots stays free. |
| Generator.BuildBase | components/Game.tsx:382-436 | Shaping and the locked-shelf stocking. The setup is invalid exactly when the key constraint is on and the locked shelf id names no shelf. |
| Generator.BuildPool | components/Game.tsx:439-479 | The loops pushing bombs, ice creams and standard triples after the keys build `Pool`. |
| Generator.PlacementPremises | components/Game.tsx:482-506 | The base board is well formed. Too few empty slots happens exactly when the specials exceed the free slots. With the locked shelf stocked, or no locked shelf, every attempt is acceptable. |
| Generator.InitialBoardFacts | components/Game.tsx:482-526 | A placed, solvable board has the level's shape, holds every created item exactly once, has distinct uids and no fragile counters, and a stocked locked shelf. |
| Generator.Generate | components/Game.tsx:375-548 | Shaping, pool building and the retry loop. The setup is invalid exactly when the key constraint is on and the locked shelf is missing. For a valid setup, generation fails exactly when none of the 100 attempts passes. A started session is an `InitialSession` on the first passing attempt's board. When a solvable attempt is guaranteed, generation fails exactly when the specials do not fit. |
| Generator.StartGame | components/Game.tsx:368-549 | `NoLives` happens exactly without lives. An invalid setup keeps the life taken, and a failed generation refunds it. With a life, generation fails exactly when no attempt passes, and a started session is an `InitialSession` on the first passing attempt's board, with specials that fit. When a solvable attempt is guaranteed, generation fails exactly when the specials do not fit. |
| Generator.CatalogLevelsGenerate | components/Game.tsx:219-294 | Every catalog level has no locked shelf and room for its specials, so with a life left it always starts. |

## Left out

- Rendering, the SVG item art, the menus, and window and pointer plumbing are not modelled. This covers `getPointerPos`, `elementFromPoint` and `handleDragMove`. The shelf under the pointer arrives in `Moves.Drop` as an `Option<int>` already parsed from `data-shelf-id`.
- `localStorage`, coins and the life regeneration are not modelled. `StartGame` takes the life count as a parameter and returns the new one.
- `setInterval`/`setTimeout` are not modelled as timers. The tick is a function applied once per second. The one-second "cleared" message is left out.
- `Math.floor(totalSlots * 0.2)` is modelled as integer division by 5, which agrees for the slot counts a board can have.
- `Math.random`'s distribution is not modelled. Coin flips and the `sort(() => Math.random() - 0.5)` shuffles are inputs, so the model says which outcomes are possible, not how likely they are.
- Uids are modelled as counter values, not random strings. They are distinct by construction, where the component only makes collisions unlikely.
- The "Missing Items" branch (components/Game.tsx:414-419) cannot be reached: it fires only when no standard kind is left after soda and milk are removed, and four are left. The model leaves it out.
- The component's shallow copy (`[...gameState.shelves]`) writes into the previous state's shelf objects. The model treats every state as a fresh value, so that aliasing is not captured.
- React's batching and StrictMode double-invocation are not modelled. Updates are applied in the order the handler queues them.
- `Moves.Drop`: it requires `Holds`, meaning the drag names the slot its item sits in. The rendered board always passes matching values; the model does not cover a stale drag.
- `app/layout.tsx` and the page shell are not part of this model.

## Behaviour the model follows from the code

- A setup whose locked shelf id names no shelf keeps the life it took. Only a failed generation refunds it (`Generator.StartGame`).
- A tick that loses on time still burns the fuse in the same step (`Timer.TickLosses`).
- A breaking move is applied as lost, but the recheck queued after it can still turn it into a win. This happens when that move clears the last shelf; the break message is kept (`MoveLaws.BreakThenWin`, `MoveLaws.BreakOnWinningMove`).
- Like `handleDragEnd` (components/Game.tsx:613-744), `Moves.Drop` does not refuse a drop once the game has ended, so a clearing drop on a lost session can turn it into a win. In the app the end-of-game overlay keeps the pointer off the shelves. `MoveLaws.DropStatus` speaks only of drops from a playing session.
