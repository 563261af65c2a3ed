/**
 * The level catalog: `LevelConfig` and the table built by `generateLevels`
 * (components/Game.tsx:35-50, 215-294).
 */
module Levels {
  import opened Wrappers

  /** `shelfSize: number | 'mixed'`. */
  datatype ShelfSize = Fixed(size: nat) | MixedSize

  datatype LevelConfig = LevelConfig(
    id: int,
    shelfSize: ShelfSize,
    moveLimit: Option<int>,
    timeLimit: Option<int>,
    shelves: int,
    mixed: bool,
    numBombs: int,
    bombTimeLimit: Option<int>,
    numIceCreams: int,
    iceCreamConstraint: bool,
    fragileShelfActive: bool,
    fragileShelfId: Option<int>,
    keyConstraintActive: bool,
    lockedShelfId: Option<int>)

  const LevelCount: nat := 50

  /** The defaults every level starts from before its adjustments. */
  function DefaultLevel(i: int): LevelConfig
  {
    LevelConfig(i, Fixed(3), Some(20 + i * 2), None, 12, false,
                0, None, 0, false, false, None, false, None)
  }

  /** The catalog as a table: level i's configuration, one case per level group. */
  function LevelFor(i: int): LevelConfig
  {
    var d := DefaultLevel(i);
    if i == 1 then d.(moveLimit := Some(25), timeLimit := Some(120))
    else if i == 2 then d.(moveLimit := None, timeLimit := Some(90))
    else if i == 3 then d.(moveLimit := Some(35), timeLimit := Some(120), shelves := 10)
    else if i == 4 then d.(moveLimit := Some(30), timeLimit := Some(100), numBombs := 3, bombTimeLimit := Some(15))
    else if i == 5 then d.(moveLimit := Some(40), timeLimit := Some(120), numIceCreams := 6, iceCreamConstraint := true)
    else if i == 6 then d.(moveLimit := Some(35), timeLimit := Some(120), fragileShelfActive := true, fragileShelfId := Some(0))
    else if i == 7 then d.(moveLimit := Some(45), timeLimit := Some(180))
    else if i > 7 then d.(mixed := true, shelfSize := MixedSize, moveLimit := Some(40 + i), timeLimit := Some(120))
    else d
  }

  /** `generateLevels`: one configuration per level 1..50, built by adjusting the defaults. */
  method GenerateLevels() returns (levels: seq<LevelConfig>)
    ensures |levels| == LevelCount
    ensures forall k :: 0 <= k < |levels| ==> levels[k] == LevelFor(k + 1)
    ensures forall k :: 0 <= k < |levels| ==> levels[k].id == k + 1
  {
    levels := [];
    var i := 1;
    while i <= 50
      invariant 1 <= i <= 51
      invariant |levels| == i - 1
      invariant forall k :: 0 <= k < |levels| ==> levels[k] == LevelFor(k + 1)
    {
      var config := LevelConfig(i, Fixed(3), Some(20 + i * 2), None, 12, false,
                                0, None, 0, false, false, None, false, None);
      if i == 1 { config := config.(moveLimit := Some(25), timeLimit := Some(120)); }
      if i == 2 { config := config.(moveLimit := None, timeLimit := Some(90)); }
      if i == 3 { config := config.(moveLimit := Some(35), timeLimit := Some(120), shelves := 10); }
      if i == 4 {
        config := config.(moveLimit := Some(30), timeLimit := Some(100));
        config := config.(numBombs := 3, bombTimeLimit := Some(15), shelves := 12);
      }
      if i == 5 {
        config := config.(moveLimit := Some(40), timeLimit := Some(120));
        config := config.(numIceCreams := 6, iceCreamConstraint := true, shelves := 12);
      }
      if i == 6 {
        config := config.(moveLimit := Some(35), timeLimit := Some(120));
        config := config.(fragileShelfActive := true, shelves := 12, fragileShelfId := Some(0));
      }
      if i == 7 {
        config := config.(moveLimit := Some(45), timeLimit := Some(180), shelves := 12);
      }
      if i > 7 {
        config := config.(mixed := true, shelfSize := MixedSize);
        config := config.(moveLimit := Some(40 + i), timeLimit := Some(120));
      }
      levels := levels + [config];
      i := i + 1;
    }
  }

  /** What the catalog promises about the constraint levels. */
  lemma CatalogConstraints()
    ensures LevelFor(2).moveLimit == None && LevelFor(2).timeLimit == Some(90)
    ensures LevelFor(4).numBombs == 3 && LevelFor(4).bombTimeLimit == Some(15)
    ensures LevelFor(5).numIceCreams == 6 && LevelFor(5).iceCreamConstraint
    ensures LevelFor(6).fragileShelfActive && LevelFor(6).fragileShelfId == Some(0)
    ensures forall i :: 1 <= i <= LevelCount && i != 4 ==> LevelFor(i).numBombs == 0 && LevelFor(i).bombTimeLimit == None
    ensures forall i :: 1 <= i <= LevelCount && i != 5 ==> LevelFor(i).numIceCreams == 0 && !LevelFor(i).iceCreamConstraint
    ensures forall i :: 1 <= i <= LevelCount && i != 6 ==> !LevelFor(i).fragileShelfActive && LevelFor(i).fragileShelfId == None
  {
  }

  /** Shelf shapes: levels above 7 use mixed capacities, the others a fixed 3; 10 or 12 shelves. */
  lemma CatalogShape(i: int)
    requires 1 <= i <= LevelCount
    ensures LevelFor(i).mixed <==> i > 7
    ensures LevelFor(i).shelfSize == if i > 7 then MixedSize else Fixed(3)
    ensures LevelFor(i).shelves == if i == 3 then 10 else 12
    ensures LevelFor(i).id == i
  {
  }

  /** The key/lock constraint is defined but no level turns it on. */
  lemma CatalogKeyLockInactive(i: int)
    requires 1 <= i <= LevelCount
    ensures !LevelFor(i).keyConstraintActive && LevelFor(i).lockedShelfId == None
  {
  }

  /** Every level but level 2 has a positive move limit, and every level a positive time limit. */
  lemma CatalogLimits(i: int)
    requires 1 <= i <= LevelCount
    ensures i != 2 <==> LevelFor(i).moveLimit.Some?
    ensures LevelFor(i).moveLimit.Some? ==> LevelFor(i).moveLimit.value >= 25
    ensures LevelFor(i).timeLimit.Some? && LevelFor(i).timeLimit.value >= 90
  {
  }
}
