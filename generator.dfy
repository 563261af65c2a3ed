/**
 * Board generation for one level (`handleStartGame`, components/Game.tsx:368-549):
 * shelf shaping, the item pool, the standard-item budget, the locked shelf,
 * randomised placement with the solvability retry, and the initial session.
 */
module Generator {
  import opened Wrappers
  import opened Board
  import opened Levels
  import opened Solvability
  import opened Session
  import opened Placement

  /** `MIN_EMPTY_SLOTS`: empty slots kept free on a level without a fragile shelf. */
  const MinEmptySlots: int := 6

  /** `availableStandardTypes`: the standard kinds without soda and milk. */
  const LockedStock: seq<Kind> := [Chips, Jam, Juice, Water]

  /** The kinds stocked on the locked shelf: `availableStandardTypes[j % 4]` for j = 0, 1, 2. */
  const LockedKinds: seq<Kind> := [Chips, Jam, Juice]

  /** How starting a level ends. */
  datatype StartOutcome =
    | NoLives                 // `lives <= 0`: nothing happens
    | SetupShelfInvalid       // the locked shelf id names no shelf
    | GenerationFailed        // no solvable board within the attempts; the life is refunded
    | Started(session: Session)

  // ---------------------------------------------------------------------------------
  // Shelf shaping

  function ShelfCount(level: LevelConfig): nat
  {
    if level.shelves < 0 then 0 else level.shelves
  }

  /**
   * The capacity of shelf i: the fixed size, or 3 or 2 by the shelf's coin flip
   * (`Math.random() > 0.5`, given as `caps[i]`) on mixed levels; the locked shelf always 3.
   */
  function Capacity(level: LevelConfig, caps: seq<bool>, i: int): nat
  {
    if level.lockedShelfId == Some(i) then 3
    else match level.shelfSize
      case Fixed(n) => n
      case MixedSize => if 0 <= i < |caps| && caps[i] then 3 else 2
  }

  function EmptyShelf(level: LevelConfig, caps: seq<bool>, i: nat): Shelf
  {
    Shelf(i, Capacity(level, caps, i), Nulls(Capacity(level, caps, i)))
  }

  /** The shelves before anything is placed on them. */
  function ShapedShelves(level: LevelConfig, caps: seq<bool>): (r: seq<Shelf>)
    ensures |r| == ShelfCount(level) && WellFormed(r)
    ensures forall i :: 0 <= i < |r| ==> r[i] == EmptyShelf(level, caps, i)
  {
    seq(ShelfCount(level), i requires 0 <= i => EmptyShelf(level, caps, i))
  }

  /** The shaping loop. */
  method ShapeShelves(level: LevelConfig, caps: seq<bool>) returns (shelves: seq<Shelf>)
    ensures shelves == ShapedShelves(level, caps)
  {
    shelves := [];
    var i := 0;
    while i < level.shelves
      invariant 0 <= i && (i <= level.shelves || i == 0)
      invariant |shelves| == i
      invariant forall k :: 0 <= k < i ==> shelves[k] == EmptyShelf(level, caps, k)
    {
      var cap: nat := match level.shelfSize
        case MixedSize => if i < |caps| && caps[i] then 3 else 2
        case Fixed(n) => n;
      if level.lockedShelfId == Some(i) {
        cap := 3;
      }
      shelves := shelves + [Shelf(i, cap, Nulls(cap))];
      i := i + 1;
    }
  }

  /** Every slot of the shaped board. */
  function TotalSlots(level: LevelConfig, caps: seq<bool>): int
  {
    CapacitySum(ShapedShelves(level, caps))
  }

  /** The locked shelf exists when its id is a shelf position. */
  predicate LockedShelfExists(level: LevelConfig)
  {
    level.lockedShelfId.Some? && 0 <= level.lockedShelfId.value < ShelfCount(level)
  }

  // ---------------------------------------------------------------------------------
  // The item pool and the standard-item budget

  function Count(n: int): nat
  {
    if n < 0 then 0 else n
  }

  /** Keys in the pool, and items on the locked shelf: three each when the key constraint is on. */
  function LockCount(level: LevelConfig): nat
  {
    if level.keyConstraintActive then 3 else 0
  }

  /** `specialItemsToPlaceCount`: keys, bombs and ice creams. */
  function SpecialCount(level: LevelConfig): nat
  {
    LockCount(level) + Count(level.numBombs) + Count(level.numIceCreams)
  }

  /** `fixedEmptySlots`: a fifth of all slots, rounded down, on a fragile level; else 6. */
  function Margin(level: LevelConfig, total: int): int
  {
    if level.fragileShelfActive then total / 5 else MinEmptySlots
  }

  /** `requiredStandardItems`: slots left after the locked items, the margin and the specials, rounded down to a multiple of 3. */
  function StandardBudget(level: LevelConfig, caps: seq<bool>): nat
  {
    var total := TotalSlots(level, caps);
    var toPlace := total - LockCount(level) - Margin(level, total);
    var n: nat := if toPlace - SpecialCount(level) < 0 then 0 else toPlace - SpecialCount(level);
    n - n % 3
  }

  /** The slots the placement can use: all but the locked items'. */
  function FreeSlots(level: LevelConfig, caps: seq<bool>): int
  {
    TotalSlots(level, caps) - LockCount(level)
  }

  function PoolSize(level: LevelConfig, caps: seq<bool>): nat
  {
    SpecialCount(level) + StandardBudget(level, caps)
  }

  function Repeat(k: Kind, n: nat): (r: seq<Kind>)
    ensures |r| == n
  {
    seq(n, _ => k)
  }

  /** The standard kinds of the pool: `t` triples, of each kind in `standardItemTypes` order in turn. */
  function Triples(t: nat): (r: seq<Kind>)
    ensures |r| == 3 * t
  {
    if t == 0 then [] else var x := TripleKind(t - 1); Triples(t - 1) + [x, x, x]
  }

  /** The kind of the t-th triple: the standard kinds in turn, starting over after the sixth. */
  function TripleKind(t: nat): (k: Kind)
    ensures !IsSpecial(k)
  {
    if t < |StandardKinds| then StandardKinds[t] else TripleKind(t - |StandardKinds|)
  }

  /** The turn is `standardItemTypes[typeIdx % standardItemTypes.length]`. */
  lemma {:induction false} TripleKindCycles(t: nat)
    ensures TripleKind(t) == StandardKinds[t % |StandardKinds|]
  {
    if t >= |StandardKinds| {
      TripleKindCycles(t - |StandardKinds|);
    }
  }

  /** Items issued in order from `first` on, one per kind; `first + m` stands for a fresh uid. */
  function Issued(first: nat, kinds: seq<Kind>): (r: seq<Item>)
    ensures |r| == |kinds|
  {
    seq(|kinds|, m requires 0 <= m < |kinds| => Item(first + m, kinds[m], None))
  }

  /** The pool after the keys: bombs, ice creams, then the standard items. */
  function RestKinds(level: LevelConfig, caps: seq<bool>): seq<Kind>
  {
    Repeat(Bomb, Count(level.numBombs)) + Repeat(IceCream, Count(level.numIceCreams)) + Triples(StandardBudget(level, caps) / 3)
  }

  /** The kinds of the pool, in the order it is built. */
  function PoolKinds(level: LevelConfig, caps: seq<bool>): seq<Kind>
  {
    Repeat(Key, LockCount(level)) + RestKinds(level, caps)
  }

  function LockedShelfKinds(level: LevelConfig): seq<Kind>
  {
    if level.keyConstraintActive then LockedKinds else []
  }

  /** Every item the generator creates, in creation order: keys, locked items, then the rest of the pool. */
  function InitialKinds(level: LevelConfig, caps: seq<bool>): seq<Kind>
  {
    Repeat(Key, LockCount(level)) + LockedShelfKinds(level) + RestKinds(level, caps)
  }

  /** The pool before its shuffle; uids follow creation order, the locked items' taken between the keys and the rest. */
  function Pool(level: LevelConfig, caps: seq<bool>): seq<Item>
  {
    Issued(0, Repeat(Key, LockCount(level))) + Issued(2 * LockCount(level), RestKinds(level, caps))
  }

  function LockedItems(level: LevelConfig): seq<Item>
  {
    Issued(LockCount(level), LockedShelfKinds(level))
  }

  /** Filled slots. */
  function AsSlots(xs: seq<Item>): (r: Slots)
    ensures |r| == |xs| && forall m :: 0 <= m < |xs| ==> r[m] == Some(xs[m])
  {
    seq(|xs|, m requires 0 <= m < |xs| => Some(xs[m]))
  }

  /** The board the placement starts from: the shaped shelves, the locked shelf stocked. */
  function BaseBoard(level: LevelConfig, caps: seq<bool>): seq<Shelf>
  {
    var shaped := ShapedShelves(level, caps);
    if level.keyConstraintActive && LockedShelfExists(level) then
      var l := level.lockedShelfId.value;
      shaped[l := shaped[l].(items := AsSlots(LockedItems(level)))]
    else shaped
  }

  /** The placement's retries can only come up short when a shelf the predicate skips takes random items. */
  predicate Covered(level: LevelConfig)
  {
    level.keyConstraintActive || level.lockedShelfId == None
  }

  // ---------------------------------------------------------------------------------
  // The loops that build the pool

  /** Pushes `count` fresh items of one kind, one per pass; a count below 1 pushes none. */
  method IssueRun(xs: seq<Item>, kind: Kind, count: int, uid: nat) returns (ys: seq<Item>, next: nat)
    ensures ys == xs + Issued(uid, Repeat(kind, Count(count)))
    ensures next == uid + Count(count)
  {
    ys := xs;
    next := uid;
    var j := 0;
    while j < count
      invariant 0 <= j && (j <= count || j == 0)
      invariant ys == xs + Issued(uid, Repeat(kind, j)) && next == uid + j
    {
      ys := ys + [Item(next, kind, None)];
      next := next + 1;
      j := j + 1;
    }
  }

  /** The three locked items, their kinds taken in turn from the locked-shelf stock list. */
  method IssueLockedItems(uid: nat) returns (items: seq<Item>, next: nat)
    ensures items == Issued(uid, LockedKinds) && next == uid + 3
  {
    items := [];
    next := uid;
    for j := 0 to 3
      invariant |items| == j && next == uid + j
      invariant forall m :: 0 <= m < j ==> items[m] == Item(uid + m, LockedStock[m % |LockedStock|], None)
    {
      items := items + [Item(next, LockedStock[j % |LockedStock|], None)];
      next := next + 1;
    }
  }

  /**
   * The standard fill: kinds in turn, three at a time, until the pool has `target` items.
   * The budget is a multiple of 3, so every kind taken is taken three times.
   */
  method FillStandard(xs: seq<Item>, target: int, uid: nat) returns (ys: seq<Item>, next: nat)
    requires |xs| <= target && (target - |xs|) % 3 == 0
    ensures ys == xs + Issued(uid, Triples((target - |xs|) / 3))
    ensures next == uid + (target - |xs|)
  {
    ys := xs;
    next := uid;
    ghost var q := (target - |xs|) / 3;
    assert target == |xs| + 3 * q;
    var typeIdx: nat := 0;
    while |ys| < target
      invariant typeIdx <= q && |ys| == |xs| + 3 * typeIdx
      invariant ys == xs + Issued(uid, Triples(typeIdx)) && next == uid + 3 * typeIdx
      decreases target - |ys|
    {
      var kind := StandardKinds[typeIdx % |StandardKinds|];
      ghost var before, start := ys, next;
      ys, next := IssueTriple(ys, kind, next, target);
      TripleKindCycles(typeIdx);
      TripleStep(xs, uid, typeIdx, kind, before, start, ys);
      typeIdx := typeIdx + 1;
    }
    assert typeIdx == q;
  }

  /** Three more items of the next kind in turn complete one more triple. */
  lemma TripleStep(xs: seq<Item>, uid: nat, t: nat, kind: Kind, before: seq<Item>, start: nat, ys: seq<Item>)
    requires kind == TripleKind(t) && start == uid + 3 * t
    requires before == xs + Issued(uid, Triples(t))
    requires ys == before + Issued(start, [kind, kind, kind])
    ensures ys == xs + Issued(uid, Triples(t + 1))
  {
    var ks, run := Triples(t), [kind, kind, kind];
    calc {
      ys;
      xs + Issued(uid, ks) + Issued(uid + |ks|, run);
      { IssuedConcat(uid, ks, run); }
      xs + Issued(uid, ks + run);
    }
  }

  /** The inner loop: three items of one kind, while the pool is short of its target. */
  method IssueTriple(xs: seq<Item>, kind: Kind, uid: nat, target: int) returns (ys: seq<Item>, next: nat)
    requires |xs| + 3 <= target
    ensures ys == xs + Issued(uid, [kind, kind, kind]) && next == uid + 3
  {
    ys := xs;
    next := uid;
    var k := 0;
    while k < 3 && |ys| < target
      invariant 0 <= k <= 3 && |ys| == |xs| + k
      invariant ys == xs + Issued(uid, Repeat(kind, k)) && next == uid + k
    {
      ys := ys + [Item(next, kind, None)];
      next := next + 1;
      k := k + 1;
    }
    assert Repeat(kind, k) == [kind, kind, kind];
  }

  // ---------------------------------------------------------------------------------
  // Starting a level

  /** What a freshly generated board promises. */
  ghost predicate InitialBoard(level: LevelConfig, caps: seq<bool>, b: seq<Shelf>)
  {
    WellFormed(b) && |b| == ShelfCount(level) &&
    (forall i :: 0 <= i < |b| ==> b[i].capacity == Capacity(level, caps, i)) &&
    CapacitySum(b) == TotalSlots(level, caps) &&
    Solvable(b, level.lockedShelfId) &&
    multiset(Project(BoardItems(b, None), KindOf)) == multiset(InitialKinds(level, caps)) &&
    UidsUnique(BoardItems(b, None)) &&
    (forall x :: x in BoardItems(b, None) ==> x.fragileMoves == None) &&
    (level.keyConstraintActive ==>
       LockedShelfExists(level) && b[level.lockedShelfId.value].items == AsSlots(LockedItems(level)))
  }

  /** The session a successful start installs. */
  ghost predicate InitialSession(level: LevelConfig, caps: seq<bool>, s: Session)
  {
    InitialBoard(level, caps, s.shelves) &&
    s.movesLeft == level.moveLimit && s.timeLeft == level.timeLimit &&
    s.bombsLeft == level.numBombs && s.bombTimer == level.bombTimeLimit &&
    s.frozenShelves == [] && s.lockedShelf == level.keyConstraintActive &&
    s.fragileShelfId == level.fragileShelfId &&
    s.status == Playing && s.failReason == None
  }

  /**
   * The first half of the setup: shape the shelves, then with the key constraint on issue the
   * three keys and the three locked items and stock the locked shelf. `valid` is false when the
   * locked shelf id names no shelf.
   */
  method BuildBase(level: LevelConfig, caps: seq<bool>)
    returns (valid: bool, shelves: seq<Shelf>, keys: seq<Item>, lockedItems: seq<Item>, uid: nat)
    ensures valid <==> (level.keyConstraintActive ==> LockedShelfExists(level))
    ensures valid ==> shelves == BaseBoard(level, caps) && lockedItems == LockedItems(level)
    ensures keys == Issued(0, Repeat(Key, LockCount(level))) && uid == 2 * LockCount(level)
  {
    shelves := ShapeShelves(level, caps);
    keys := [];
    lockedItems := [];
    uid := 0;
    valid := true;
    if level.keyConstraintActive {
      keys, uid := IssueRun(keys, Key, 3, uid);
      lockedItems, uid := IssueLockedItems(uid);
      var found := if level.lockedShelfId.Some? then FindShelf(shelves, level.lockedShelfId.value) else None;
      FindWellFormed(shelves, if level.lockedShelfId.Some? then level.lockedShelfId.value else -1);
      if found.None? {
        valid := false;
        return;
      }
      var l := found.value;
      shelves := shelves[l := shelves[l].(items := AsSlots(lockedItems))];
    }
  }

  /**
   * The second half: bombs and ice creams after the keys, then the standard budget computed
   * from the board's slot count and filled three of a kind at a time.
   */
  method BuildPool(level: LevelConfig, caps: seq<bool>, shelves: seq<Shelf>, lockedItems: seq<Item>,
                   keys: seq<Item>, uid: nat)
    returns (pool: seq<Item>)
    requires level.keyConstraintActive ==> LockedShelfExists(level)
    requires shelves == BaseBoard(level, caps) && lockedItems == LockedItems(level)
    requires keys == Issued(0, Repeat(Key, LockCount(level))) && uid == 2 * LockCount(level)
    ensures pool == Pool(level, caps)
  {
    var next: nat;
    ghost var bombs := Issued(uid, Repeat(Bomb, Count(level.numBombs)));
    pool, next := IssueRun(keys, Bomb, level.numBombs, uid);
    ghost var iceStart := next;
    ghost var ices := Issued(next, Repeat(IceCream, Count(level.numIceCreams)));
    pool, next := IssueRun(pool, IceCream, level.numIceCreams, next);
    BaseShape(level, caps);
    var required := StandardBudget(level, caps);
    BudgetRoundsDown(level, caps);
    ghost var standardStart := next;
    ghost var standard := Issued(next, Triples(required / 3));
    ghost var specials := pool;
    assert |specials| + required - |specials| == required;
    pool, next := FillStandard(pool, |pool| + required, next);
    PoolAssembled(level, caps, pool, keys, bombs, ices, standard, iceStart, standardStart, required);
  }

  /**
   * `handleStartGame` once the life is taken: the setup, the pool, the placement with its
   * retries and the initial session. `caps` are the shelves' coin flips and `shuffles` the
   * attempts' draws. Generation fails exactly when none of the 100 attempts passes the
   * predicate, and a started session has the first passing attempt's board.
   */
  method Generate(level: LevelConfig, caps: seq<bool>, shuffles: seq<Shuffle>) returns (outcome: StartOutcome)
    ensures !outcome.NoLives?
    ensures outcome.SetupShelfInvalid? <==> level.keyConstraintActive && !LockedShelfExists(level)
    ensures outcome.Started? ==> InitialSession(level, caps, outcome.session) && SpecialCount(level) <= FreeSlots(level, caps)
    ensures outcome.Started? ==>
      FirstPassingBoard(BaseBoard(level, caps), Pool(level, caps), level.lockedShelfId, shuffles, outcome.session.shelves)
    ensures (level.keyConstraintActive ==> LockedShelfExists(level)) ==>
      (outcome.GenerationFailed? <==>
         !SomeAttemptPasses(BaseBoard(level, caps), Pool(level, caps), level.lockedShelfId, shuffles))
    ensures Covered(level) && (level.keyConstraintActive ==> LockedShelfExists(level)) ==>
      (outcome.GenerationFailed? <==> SpecialCount(level) > FreeSlots(level, caps))
  {
    var valid, shelves, keys, lockedItems, uid := BuildBase(level, caps);
    if !valid {
      return SetupShelfInvalid;
    }
    var pool := BuildPool(level, caps, shelves, lockedItems, keys, uid);
    PlacementPremises(level, caps);
    var solvable, board := PlaceWithRetries(shelves, pool, level.lockedShelfId, shuffles);
    if !solvable {
      return GenerationFailed;
    }
    var session := Session(board, level.moveLimit, level.timeLimit, level.numBombs, level.bombTimeLimit,
                           [], level.keyConstraintActive, level.fragileShelfId, Playing, None);
    StartedSession(level, caps, session);
    outcome := Started(session);
  }

  /**
   * `handleStartGame`. `lives` is the life count before the start and `livesAfter` after it:
   * nothing happens without a life, a failed generation refunds the life it took, and an
   * invalid setup keeps it.
   */
  method StartGame(level: LevelConfig, lives: int, caps: seq<bool>, shuffles: seq<Shuffle>)
    returns (outcome: StartOutcome, livesAfter: int)
    ensures outcome == NoLives <==> lives <= 0
    ensures livesAfter == if outcome.NoLives? || outcome.GenerationFailed? then lives else lives - 1
    ensures outcome.SetupShelfInvalid? <==> lives > 0 && level.keyConstraintActive && !LockedShelfExists(level)
    ensures outcome.Started? ==> InitialSession(level, caps, outcome.session)
    ensures outcome.Started? ==> SpecialCount(level) <= FreeSlots(level, caps)
    ensures outcome.Started? ==>
      FirstPassingBoard(BaseBoard(level, caps), Pool(level, caps), level.lockedShelfId, shuffles, outcome.session.shelves)
    ensures lives > 0 && (level.keyConstraintActive ==> LockedShelfExists(level)) ==>
      (outcome.GenerationFailed? <==>
         !SomeAttemptPasses(BaseBoard(level, caps), Pool(level, caps), level.lockedShelfId, shuffles))
    ensures lives > 0 && Covered(level) && (level.keyConstraintActive ==> LockedShelfExists(level)) ==>
      (outcome.GenerationFailed? <==> SpecialCount(level) > FreeSlots(level, caps))
  {
    if lives <= 0 {
      return NoLives, lives;
    }
    outcome := Generate(level, caps, shuffles);
    livesAfter := if outcome.GenerationFailed? then lives else lives - 1;
  }

  // ---------------------------------------------------------------------------------
  // Lemmas

  lemma IssuedConcat(first: nat, ks1: seq<Kind>, ks2: seq<Kind>)
    ensures Issued(first, ks1) + Issued(first + |ks1|, ks2) == Issued(first, ks1 + ks2)
  {
  }

  lemma ProjectIssued(first: nat, kinds: seq<Kind>)
    ensures Project(Issued(first, kinds), KindOf) == kinds
  {
  }

  /** Items issued from one counter never share a uid. */
  lemma {:induction false} IssuedUnique(first: nat, kinds: seq<Kind>)
    ensures UidsUnique(Issued(first, kinds))
  {
    if kinds != [] {
      var n := |kinds|;
      var front := kinds[..n - 1];
      IssuedUnique(first, front);
      IssuedConcat(first, front, [kinds[n - 1]]);
      assert front + [kinds[n - 1]] == kinds;
      var xs := Issued(first, front);
      var x := Item(first + (n - 1), kinds[n - 1], None);
      assert Issued(first + |front|, [kinds[n - 1]]) == [x];
      assert Issued(first, kinds) == xs + [x];
      ProjectConcat(xs, [x], UidOf);
      assert Project(Issued(first, kinds), UidOf) == Project(xs, UidOf) + [x.uid];
      assert x.uid !in Project(xs, UidOf);
      forall u ensures multiset(Project(Issued(first, kinds), UidOf))[u] <= 1 {
        assert multiset(Project(Issued(first, kinds), UidOf))[u]
            == multiset(Project(xs, UidOf))[u] + multiset([x.uid])[u];
      }
    }
  }

  lemma IssuedConcat3(first: nat, a: seq<Kind>, b: seq<Kind>, c: seq<Kind>, second: nat, third: nat)
    requires second == first + |a| && third == second + |b|
    ensures Issued(first, a) + Issued(second, b) + Issued(third, c) == Issued(first, a + b + c)
  {
    IssuedConcat(first, a, b);
    IssuedConcat(first, a + b, c);
  }

  /** The pool the loops build is `Pool`. */
  lemma PoolAssembled(level: LevelConfig, caps: seq<bool>, pool: seq<Item>,
                       keys: seq<Item>, bombs: seq<Item>, ices: seq<Item>, standard: seq<Item>,
                       iceStart: nat, standardStart: nat, budget: nat)
    requires keys == Issued(0, Repeat(Key, LockCount(level)))
    requires bombs == Issued(2 * LockCount(level), Repeat(Bomb, Count(level.numBombs)))
    requires iceStart == 2 * LockCount(level) + Count(level.numBombs)
    requires ices == Issued(iceStart, Repeat(IceCream, Count(level.numIceCreams)))
    requires standardStart == iceStart + Count(level.numIceCreams) && budget == StandardBudget(level, caps)
    requires standard == Issued(standardStart, Triples(budget / 3))
    requires pool == keys + bombs + ices + standard
    ensures pool == Pool(level, caps)
  {
    var nb := Repeat(Bomb, Count(level.numBombs));
    var ni := Repeat(IceCream, Count(level.numIceCreams));
    var rr := Triples(StandardBudget(level, caps) / 3);
    var f := 2 * LockCount(level);
    IssuedConcat3(f, nb, ni, rr, iceStart, standardStart);
    Reassociate(keys, bombs, ices, standard);
    assert RestKinds(level, caps) == nb + ni + rr;
    assert Pool(level, caps) == keys + Issued(f, nb + ni + rr);
  }
  /** Proof helper: regrouping a four-part concatenation. */
  lemma Reassociate<T>(k: seq<T>, x: seq<T>, y: seq<T>, z: seq<T>)
    ensures k + x + y + z == k + (x + y + z)
  {
  }


  /** What one triple of kind `x` adds to the count of kind `k`. */
  function TripleShare(x: Kind, k: Kind): nat
  {
    if x == k then 3 else 0
  }

  lemma CountAppendTriple(s: seq<Kind>, x: Kind, k: Kind)
    ensures multiset(s + [x, x, x])[k] == multiset(s)[k] + TripleShare(x, k)
  {
  }

  /** The turns of the first `t` triples. */
  function Turns(t: nat): (r: seq<Kind>)
    ensures |r| == t
  {
    seq(t, i requires 0 <= i => TripleKind(i))
  }

  /** Each kind of `ks` three times, in order. */
  function Tripled(ks: seq<Kind>): seq<Kind>
  {
    if ks == [] then [] else var x := ks[|ks| - 1]; Tripled(ks[..|ks| - 1]) + [x, x, x]
  }

  lemma {:induction false} TriplesAreTripled(t: nat)
    ensures Triples(t) == Tripled(Turns(t))
  {
    if t > 0 {
      TriplesAreTripled(t - 1);
      assert Turns(t)[..t - 1] == Turns(t - 1);
    }
  }

  /** A triple of a standard kind keeps a count a multiple of 3, and a special kind's count at 0. */
  lemma ShareStep(before: int, after: int, x: Kind, k: Kind)
    requires !IsSpecial(x)
    requires after == before + TripleShare(x, k)
    requires before % 3 == 0
    requires IsSpecial(k) ==> before == 0
    ensures after % 3 == 0 && (IsSpecial(k) ==> after == 0)
  {
  }

  /** Tripled standard kinds hold every kind a multiple of 3 times, and no special kind. */
  lemma {:induction false} TripledCount(ks: seq<Kind>, k: Kind)
    requires forall i :: 0 <= i < |ks| ==> !IsSpecial(ks[i])
    ensures multiset(Tripled(ks))[k] % 3 == 0
    ensures IsSpecial(k) ==> multiset(Tripled(ks))[k] == 0
  {
    if ks != [] {
      var n := |ks|;
      var front := ks[..n - 1];
      assert forall i :: 0 <= i < |front| ==> front[i] == ks[i];
      TripledCount(front, k);
      CountAppendTriple(Tripled(front), ks[n - 1], k);
      ShareStep(multiset(Tripled(front))[k], multiset(Tripled(ks))[k], ks[n - 1], k);
    }
  }

  /** Whole triples hold every standard kind a multiple of 3 times, and no special kind. */
  lemma TriplesCount(t: nat, k: Kind)
    ensures multiset(Triples(t))[k] % 3 == 0
    ensures IsSpecial(k) ==> multiset(Triples(t))[k] == 0
  {
    TriplesAreTripled(t);
    TripledCount(Turns(t), k);
  }

  lemma {:induction false} RepeatCountOf(k: Kind, n: nat, j: Kind)
    ensures multiset(Repeat(k, n))[j] == if j == k then n else 0
  {
    if n > 0 {
      RepeatCountOf(k, n - 1, j);
      assert Repeat(k, n) == Repeat(k, n - 1) + [k];
    }
  }

  /** Proof helper: the count of a kind in a four-part concatenation. */
  lemma MultisetOf4(a: seq<Kind>, b: seq<Kind>, c: seq<Kind>, d: seq<Kind>, k: Kind)
    ensures multiset(a + b + c + d)[k] == multiset(a)[k] + multiset(b)[k] + multiset(c)[k] + multiset(d)[k]
  {
  }

  /** Standard budget: a multiple of 3, at most what is left after the specials and the margin, and less than 3 below it. */
  lemma BudgetRoundsDown(level: LevelConfig, caps: seq<bool>)
    ensures var total := TotalSlots(level, caps);
      var left := total - LockCount(level) - Margin(level, total) - SpecialCount(level);
      StandardBudget(level, caps) % 3 == 0 &&
      (left <= 0 ==> StandardBudget(level, caps) == 0) &&
      (left > 0 ==> StandardBudget(level, caps) <= left < StandardBudget(level, caps) + 3)
  {
  }

  /** The pool's kinds, in order, are `PoolKinds`, as many as the specials and the budget. */
  lemma PoolKindsOf(level: LevelConfig, caps: seq<bool>)
    ensures Project(Pool(level, caps), KindOf) == PoolKinds(level, caps)
    ensures |Pool(level, caps)| == PoolSize(level, caps)
  {
    var lc := LockCount(level);
    ProjectConcat(Issued(0, Repeat(Key, lc)), Issued(2 * lc, RestKinds(level, caps)), KindOf);
    ProjectIssued(0, Repeat(Key, lc));
    ProjectIssued(2 * lc, RestKinds(level, caps));
    var budget := StandardBudget(level, caps);
    BudgetRoundsDown(level, caps);
    assert budget == 3 * (budget / 3);
  }

  /** How many of kind `k` the pool holds. */
  lemma PoolKindCount(level: LevelConfig, caps: seq<bool>, k: Kind)
    ensures multiset(PoolKinds(level, caps))[k] ==
      (if k == Key then LockCount(level) else 0) +
      (if k == Bomb then Count(level.numBombs) else 0) +
      (if k == IceCream then Count(level.numIceCreams) else 0) +
      multiset(Triples(StandardBudget(level, caps) / 3))[k]
  {
    var keys := Repeat(Key, LockCount(level));
    var bombs := Repeat(Bomb, Count(level.numBombs));
    var ices := Repeat(IceCream, Count(level.numIceCreams));
    var rr := Triples(StandardBudget(level, caps) / 3);
    assert PoolKinds(level, caps) == keys + bombs + ices + rr by {
      Reassociate(keys, bombs, ices, rr);
    }
    MultisetOf4(keys, bombs, ices, rr, k);
    RepeatCountOf(Key, LockCount(level), k);
    RepeatCountOf(Bomb, Count(level.numBombs), k);
    RepeatCountOf(IceCream, Count(level.numIceCreams), k);
  }

  /**
   * What the pool holds: three keys if the key constraint is on, the level's bombs and ice
   * creams, and each standard kind a multiple of three times.
   */
  lemma PoolFacts(level: LevelConfig, caps: seq<bool>)
    ensures |Pool(level, caps)| == PoolSize(level, caps)
    ensures multiset(Project(Pool(level, caps), KindOf)) == multiset(PoolKinds(level, caps))
    ensures multiset(PoolKinds(level, caps))[Key] == LockCount(level)
    ensures multiset(PoolKinds(level, caps))[Bomb] == Count(level.numBombs)
    ensures multiset(PoolKinds(level, caps))[IceCream] == Count(level.numIceCreams)
    ensures PoolDivisible(Pool(level, caps))
  {
    var t := StandardBudget(level, caps) / 3;
    PoolKindsOf(level, caps);
    PoolKindCount(level, caps, Key);
    PoolKindCount(level, caps, Bomb);
    PoolKindCount(level, caps, IceCream);
    TriplesCount(t, Key);
    TriplesCount(t, Bomb);
    TriplesCount(t, IceCream);
    forall k | !IsSpecial(k) ensures Tally(Pool(level, caps), k) % 3 == 0 {
      PoolKindCount(level, caps, k);
      TriplesCount(t, k);
    }
  }

  /**
   * The pool fits the free slots exactly when the specials do (the budget only takes what
   * is left), and whenever standard items are placed the margin's empty slots are kept.
   */
  lemma PoolFits(level: LevelConfig, caps: seq<bool>)
    ensures PoolSize(level, caps) > FreeSlots(level, caps) <==> SpecialCount(level) > FreeSlots(level, caps)
    ensures StandardBudget(level, caps) > 0 ==>
      FreeSlots(level, caps) - PoolSize(level, caps) >= Margin(level, TotalSlots(level, caps))
  {
    BudgetRoundsDown(level, caps);
  }

  lemma {:induction false} CapacitySumSameShape(b: seq<Shelf>, c: seq<Shelf>)
    requires SameShape(b, c)
    ensures CapacitySum(b) == CapacitySum(c)
  {
    if b != [] {
      CapacitySumSameShape(b[..|b| - 1], c[..|c| - 1]);
    }
  }

  lemma {:induction false} OccupantsAsSlots(xs: seq<Item>)
    ensures Occupants(AsSlots(xs)) == xs
  {
    if xs != [] {
      var n := |xs|;
      assert AsSlots(xs)[..n - 1] == AsSlots(xs[..n - 1]);
      OccupantsAsSlots(xs[..n - 1]);
      assert xs == xs[..n - 1] + [xs[n - 1]];
    }
  }

  /** Nothing is on the shaped shelves. */
  lemma ShapedEmpty(level: LevelConfig, caps: seq<bool>, skip: Option<int>)
    ensures BoardItems(ShapedShelves(level, caps), skip) == []
  {
    var shaped := ShapedShelves(level, caps);
    forall i | 0 <= i < |shaped| ensures IsEmptyShelf(shaped[i]) {
      assert shaped[i] == EmptyShelf(level, caps, i);
    }
    BoardItemsEmpty(shaped, skip);
  }

  /** Stocking the locked shelf keeps the shaped board's shape. */
  lemma BaseShape(level: LevelConfig, caps: seq<bool>)
    requires level.keyConstraintActive ==> LockedShelfExists(level)
    ensures WellFormed(BaseBoard(level, caps))
    ensures SameShape(BaseBoard(level, caps), ShapedShelves(level, caps))
    ensures CapacitySum(BaseBoard(level, caps)) == TotalSlots(level, caps)
  {
    CapacitySumSameShape(BaseBoard(level, caps), ShapedShelves(level, caps));
  }

  /** Filling one shelf of an empty board puts exactly its items on the board. */
  lemma StockEmptyBoard(b: seq<Shelf>, l: nat, xs: seq<Item>)
    requires l < |b| && BoardItems(b, None) == []
    ensures multiset(BoardItems(b[l := b[l].(items := AsSlots(xs))], None)) == multiset(xs)
  {
    var sh := b[l].(items := AsSlots(xs));
    EmptyBoardShelf(b, l);
    OccupantsAsSlots(xs);
    BoardItemsUpdate(b, l, sh, None);
    var c := b[l := sh];
    forall o ensures multiset(BoardItems(c, None))[o] == multiset(xs)[o] {
      assert (multiset(BoardItems(c, None)) + multiset(Contribution(b[l], None)))[o]
          == (multiset(BoardItems(b, None)) + multiset(Contribution(sh, None)))[o];
    }
  }

  lemma EmptyBoardShelf(b: seq<Shelf>, l: nat)
    requires l < |b| && BoardItems(b, None) == []
    ensures Contribution(b[l], None) == []
  {
    BoardItemsEmpty(b, None);
    assert IsEmptyShelf(b[l]);
    OccupantsFull(b[l].items);
  }

  /** Filling the skipped shelf leaves the view without it as it was. */
  lemma StockSkippedShelf(b: seq<Shelf>, l: nat, xs: seq<Item>, skip: Option<int>)
    requires l < |b| && skip == Some(b[l].id)
    ensures BoardItems(b[l := b[l].(items := AsSlots(xs))], skip) == BoardItems(b, skip)
  {
    BoardItemsSkipUpdate(b, l, b[l].(items := AsSlots(xs)), skip);
  }

  /** The base board holds the locked items, all on the locked shelf. */
  lemma BaseItems(level: LevelConfig, caps: seq<bool>)
    requires level.keyConstraintActive ==> LockedShelfExists(level)
    ensures multiset(BoardItems(BaseBoard(level, caps), None)) == multiset(LockedItems(level))
    ensures BoardItems(BaseBoard(level, caps), level.lockedShelfId) == []
  {
    var shaped := ShapedShelves(level, caps);
    ShapedEmpty(level, caps, None);
    ShapedEmpty(level, caps, level.lockedShelfId);
    if level.keyConstraintActive {
      var l := level.lockedShelfId.value;
      StockEmptyBoard(shaped, l, LockedItems(level));
      StockSkippedShelf(shaped, l, LockedItems(level), level.lockedShelfId);
    }
  }

  /** The empty slots of the base board: every slot but the locked items', none of them on the locked shelf when covered. */
  lemma BaseFreeSlots(level: LevelConfig, caps: seq<bool>)
    requires level.keyConstraintActive ==> LockedShelfExists(level)
    ensures |NullSlots(BaseBoard(level, caps))| == FreeSlots(level, caps)
    ensures Covered(level) ==> NoFreeSlotOn(BaseBoard(level, caps), level.lockedShelfId)
  {
    var base := BaseBoard(level, caps);
    BaseShape(level, caps);
    BaseItems(level, caps);
    NullSlotsFacts(base);
    assert |BoardItems(base, None)| == |LockedItems(level)|;
    if level.keyConstraintActive {
      var l := level.lockedShelfId.value;
      assert base[l].items == AsSlots(LockedItems(level));
      NullSlotsAvoidFullShelf(base, l);
    }
  }

  /** Every item the generator creates, with its uid. */
  function Created(level: LevelConfig, caps: seq<bool>): seq<Item>
  {
    Issued(0, InitialKinds(level, caps))
  }

  /** The created items are the keys, then the locked items, then the rest of the pool. */
  lemma CreatedSplit(level: LevelConfig, caps: seq<bool>)
    ensures multiset(Created(level, caps)) == multiset(LockedItems(level)) + multiset(Pool(level, caps))
  {
    var lc := LockCount(level);
    var ks, ls, rs := Repeat(Key, lc), LockedShelfKinds(level), RestKinds(level, caps);
    var keys, locked, rest := Issued(0, ks), Issued(lc, ls), Issued(2 * lc, rs);
    assert |ls| == lc;
    calc {
      Created(level, caps);
      Issued(0, ks + ls + rs);
      { IssuedConcat3(0, ks, ls, rs, lc, 2 * lc); }
      keys + locked + rest;
    }
    assert multiset(keys + locked + rest) == multiset(keys) + multiset(locked) + multiset(rest);
    assert multiset(Pool(level, caps)) == multiset(keys) + multiset(rest);
  }

  /** A placed board has the base board's shape. */
  lemma PlacedShape(level: LevelConfig, caps: seq<bool>, board: seq<Shelf>)
    requires level.keyConstraintActive ==> LockedShelfExists(level)
    requires PlacedFrom(BaseBoard(level, caps), Pool(level, caps), board)
    ensures WellFormed(board) && |board| == ShelfCount(level)
    ensures forall i :: 0 <= i < |board| ==> board[i].capacity == Capacity(level, caps, i)
    ensures CapacitySum(board) == TotalSlots(level, caps)
  {
    var shaped := ShapedShelves(level, caps);
    BaseShape(level, caps);
    CapacitySumSameShape(board, BaseBoard(level, caps));
    forall i | 0 <= i < |board| ensures board[i].capacity == Capacity(level, caps, i) {
      assert shaped[i] == EmptyShelf(level, caps, i);
    }
  }

  /** A placed board holds exactly the created items. */
  lemma PlacedItems(level: LevelConfig, caps: seq<bool>, board: seq<Shelf>)
    requires level.keyConstraintActive ==> LockedShelfExists(level)
    requires PlacedFrom(BaseBoard(level, caps), Pool(level, caps), board)
    ensures multiset(BoardItems(board, None)) == multiset(Created(level, caps))
  {
    BaseItems(level, caps);
    CreatedSplit(level, caps);
  }

  /** What holding exactly the created items means: their kinds, distinct uids, nothing fragile yet. */
  lemma CreatedFacts(level: LevelConfig, caps: seq<bool>, xs: seq<Item>)
    requires multiset(xs) == multiset(Created(level, caps))
    ensures multiset(Project(xs, KindOf)) == multiset(InitialKinds(level, caps))
    ensures UidsUnique(xs)
    ensures forall x :: x in xs ==> x.fragileMoves == None
  {
    var all := Created(level, caps);
    IssuedUnique(0, InitialKinds(level, caps));
    UniquePermutation(xs, all);
    ProjectPermutation(xs, all, KindOf);
    ProjectIssued(0, InitialKinds(level, caps));
    forall x | x in xs ensures x.fragileMoves == None {
      assert x in multiset(all);
    }
  }

  /** A placed board keeps the locked shelf as it was stocked. */
  lemma PlacedLockedShelf(level: LevelConfig, caps: seq<bool>, board: seq<Shelf>)
    requires level.keyConstraintActive && LockedShelfExists(level)
    requires PlacedFrom(BaseBoard(level, caps), Pool(level, caps), board)
    ensures board[level.lockedShelfId.value].items == AsSlots(LockedItems(level))
  {
    var base := BaseBoard(level, caps);
    var l := level.lockedShelfId.value;
    BaseShape(level, caps);
    assert base[l].items == AsSlots(LockedItems(level));
    forall j | 0 <= j < |board[l].items| ensures board[l].items[j] == AsSlots(LockedItems(level))[j] {
      assert base[l].items[j].Some?;
    }
  }

  /** The board of a successful attempt has every property `InitialBoard` lists. */
  lemma InitialBoardFacts(level: LevelConfig, caps: seq<bool>, board: seq<Shelf>)
    requires level.keyConstraintActive ==> LockedShelfExists(level)
    requires PlacedFrom(BaseBoard(level, caps), Pool(level, caps), board) && Solvable(board, level.lockedShelfId)
    ensures InitialBoard(level, caps, board)
  {
    PlacedShape(level, caps, board);
    PlacedItems(level, caps, board);
    CreatedFacts(level, caps, BoardItems(board, None));
    if level.keyConstraintActive {
      PlacedLockedShelf(level, caps, board);
    }
  }

  /** What the placement step needs to know about the base board and the pool. */
  lemma PlacementPremises(level: LevelConfig, caps: seq<bool>)
    requires level.keyConstraintActive ==> LockedShelfExists(level)
    ensures WellFormed(BaseBoard(level, caps))
    ensures |NullSlots(BaseBoard(level, caps))| < |Pool(level, caps)| <==> SpecialCount(level) > FreeSlots(level, caps)
    ensures Covered(level) ==>
      NoFreeSlotOn(BaseBoard(level, caps), level.lockedShelfId) &&
      BoardItems(BaseBoard(level, caps), level.lockedShelfId) == [] && PoolDivisible(Pool(level, caps))
  {
    BaseShape(level, caps);
    BaseItems(level, caps);
    BaseFreeSlots(level, caps);
    PoolFacts(level, caps);
    PoolFits(level, caps);
  }

  /** A placed and solvable board, with the level's counters, is an initial session. */
  lemma StartedSession(level: LevelConfig, caps: seq<bool>, s: Session)
    requires level.keyConstraintActive ==> LockedShelfExists(level)
    requires PlacedFrom(BaseBoard(level, caps), Pool(level, caps), s.shelves) && Solvable(s.shelves, level.lockedShelfId)
    requires s == Session(s.shelves, level.moveLimit, level.timeLimit, level.numBombs, level.bombTimeLimit,
                          [], level.keyConstraintActive, level.fragileShelfId, Playing, None)
    ensures InitialSession(level, caps, s)
  {
    InitialBoardFacts(level, caps, s.shelves);
  }

  /** Shelves of at least `m` slots each hold at least `m` slots apiece. */
  lemma {:induction false} CapacitySumAtLeast(b: seq<Shelf>, m: int)
    requires forall i :: 0 <= i < |b| ==> b[i].capacity >= m
    ensures CapacitySum(b) >= m * |b|
  {
    if b != [] {
      CapacitySumAtLeast(b[..|b| - 1], m);
    }
  }

  /**
   * Every level of the catalog starts: no locked shelf is needed and the specials always fit,
   * so `StartGame` with a life left never reports a failed generation on them.
   */
  lemma CatalogLevelsGenerate(i: int, caps: seq<bool>)
    requires 1 <= i <= LevelCount
    ensures Covered(LevelFor(i)) && !LevelFor(i).keyConstraintActive
    ensures SpecialCount(LevelFor(i)) <= FreeSlots(LevelFor(i), caps)
  {
    var level := LevelFor(i);
    CatalogShape(i);
    CatalogKeyLockInactive(i);
    var shaped := ShapedShelves(level, caps);
    forall k | 0 <= k < |shaped| ensures shaped[k].capacity >= 2 {
      assert shaped[k] == EmptyShelf(level, caps, k);
    }
    CapacitySumAtLeast(shaped, 2);
  }
}
