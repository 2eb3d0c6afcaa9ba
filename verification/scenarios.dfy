/** Small boards worked through by hand. */
module Scenarios {
  import opened Tiles
  import opened Board
  import opened Minesweeper
  import opened FloodFill
  import opened Actions

  /** A one-tile board holding no bomb. */
  const OneSafe := Game(1, [[Tile(0, 0, false, false, false)]], 1, false)

  /** It is what the constructor builds from that layout. */
  lemma OneSafeCreated()
    ensures Create(1, [[false]]) == OneSafe
  {
    var g := Create(1, [[false]]);
    var t := Tile(0, 0, false, false, false);
    assert g.tiles[0][0] == t;
    assert g.tiles[0] == [t];
    assert g.tiles == [[t]];
    GridCountNone([[t]], IsBomb);
  }

  /** The only tile of a one-tile board has no neighbours. */
  lemma LoneTileHasNoNeighbours()
    ensures NearbyTiles(1, 0, 0) == []
  {
    var near := NearbyTiles(1, 0, 0);
    assert forall c :: c !in near;
    HeadIsMember(near);
  }

  /** OneSafe with its tile discovered. */
  const OneSafeOpen := Game(1, [[Tile(0, 0, false, true, false)]], 0, false)

  lemma OneSafeOpened()
    ensures DiscoverOne(OneSafe, (0, 0)) == OneSafeOpen
    ensures BombCells(OneSafeOpen) == []
  {
    var g1 := DiscoverOne(OneSafe, (0, 0));
    var t := Tile(0, 0, false, true, false);
    assert SetDiscovered(At(OneSafe, (0, 0)), true) == t;
    assert OneSafe.tiles[0][0 := t] == [t];
    assert g1.tiles == [[t]];
  }

  /** On that board the first trigger discovers the tile and wins at once,
      with nothing left to flag afterwards. */
  lemma SingleSafeTileWins()
    ensures Trigger(OneSafe, 0, 0) == Ok(Step(OneSafeOpen.(gameOver := true), [GameWin(0, 0, 0)]))
  {
    OneSafeTriggerReveals();
    OneSafeReveal();
  }

  lemma OneSafeTriggerReveals()
    ensures Trigger(OneSafe, 0, 0) == Ok(Reveal(OneSafe, 0, 0))
  {
    assert GetTile(OneSafe, 0, 0) == Ok(At(OneSafe, (0, 0)));
  }

  lemma OneSafeReveal()
    ensures Reveal(OneSafe, 0, 0) == Step(OneSafeOpen.(gameOver := true), [GameWin(0, 0, 0)])
  {
    LoneTileHasNoNeighbours();
    OneSafeOpened();
    assert NearbyBombs(OneSafeOpen, 0, 0) == 0;
    assert Settle(OneSafeOpen, 0, 0, 0) == Win(OneSafeOpen, 0, 0, 0, []);
    assert MarkAll(AsFlag, []) == [];
  }

  /** A three-by-three board whose only bomb is in the centre. */
  function CentreTile(x: int, y: int): Tile {
    Tile(x, y, x == 1 && y == 1, false, false)
  }

  const CentreBomb := Game(3, [[CentreTile(0, 0), CentreTile(0, 1), CentreTile(0, 2)],
                               [CentreTile(1, 0), CentreTile(1, 1), CentreTile(1, 2)],
                               [CentreTile(2, 0), CentreTile(2, 1), CentreTile(2, 2)]], 8, false)

  const CentreLayout: seq<seq<bool>> := [[false, false, false], [false, true, false], [false, false, false]]

  /** CentreBomb is what the constructor builds from that layout. */
  lemma CentreBombCreated()
    ensures Create(3, CentreLayout) == CentreBomb
  {
    var g := Create(3, CentreLayout);
    CentreBombTiles();
    forall x, y | 0 <= x < 3 && 0 <= y < 3 ensures g.tiles[x][y] == CentreBomb.tiles[x][y] {
      assert CentreLayout[x][y] == (x == 1 && y == 1);
    }
    forall x | 0 <= x < 3 ensures g.tiles[x] == CentreBomb.tiles[x] {
    }
    assert g.tiles == CentreBomb.tiles;
    CentreBombHidden();
  }

  lemma CentreBombTiles()
    ensures forall x, y :: 0 <= x < 3 && 0 <= y < 3 ==> CentreBomb.tiles[x][y] == CentreTile(x, y)
  {
    forall x, y | 0 <= x < 3 && 0 <= y < 3 ensures CentreBomb.tiles[x][y] == CentreTile(x, y) {
      if x == 0 {
      } else if x == 1 {
      } else {
      }
    }
  }

  /** The head of a non-empty sequence is one of its members. */
  lemma HeadIsMember(s: seq<Cell>)
    ensures |s| > 0 ==> s[0] in s
  {
  }

  lemma CentreBombValid()
    ensures Valid(CentreBomb)
  {
    CentreBombTiles();
    CentreBombHidden();
  }

  lemma CentreBombHidden()
    ensures GridCount(CentreBomb.tiles, IsHidden) == 8
  {
    var t := CentreBomb.tiles;
    assert RowCount(t[0], IsHidden) == 3;
    assert RowCount(t[1], IsHidden) == 2;
    assert RowCount(t[2], IsHidden) == 3;
    assert t[1..][1..][1..] == [];
  }

  /** Every corner touches the centre, so the first trigger on (0, 0) shows a
      positive count and uncovers nothing else. */
  lemma CornerBesideCentreBomb()
    ensures NearbyBombs(CentreBomb, 0, 0) == 1
    ensures var g1 := DiscoverOne(CentreBomb, (0, 0));
            Trigger(CentreBomb, 0, 0) == Ok(Step(g1, [MakeUncovered(0, 0, NearbyBombs(CentreBomb, 0, 0))]))
  {
    CornerCount(CentreBomb);
    CornerTriggerReveals(CentreBomb);
    RevealShowsCount(CentreBomb, 0, 0);
  }

  /** Away from the last safe tile, revealing a tile with bombs around it
      shows just its count. */
  lemma RevealShowsCount(g: Game, x: int, y: int)
    requires WellFormed(g) && InGrid(g.gridSize, (x, y))
    requires g.remainingTiles >= 2 && NearbyBombs(g, x, y) != 0
    ensures Reveal(g, x, y) == Step(DiscoverOne(g, (x, y)), [MakeUncovered(x, y, NearbyBombs(g, x, y))])
  {
    var g1 := DiscoverOne(g, (x, y));
    assert SameBoard(g, g1);
    NearbyBombsSameBoard(g, g1, x, y);
  }

  lemma CornerCount(g: Game)
    requires g == CentreBomb
    ensures Valid(g) && NearbyBombs(g, 0, 0) == 1
  {
    CentreBombValid();
    CornerNeighbours();
    assert At(g, (1, 1)).bomb && !At(g, (0, 1)).bomb && !At(g, (1, 0)).bomb;
  }

  lemma CornerTriggerReveals(g: Game)
    requires g == CentreBomb
    ensures Valid(g) && Trigger(g, 0, 0) == Ok(Reveal(g, 0, 0))
  {
    CentreBombValid();
    assert GetTile(g, 0, 0) == Ok(At(g, (0, 0)));
  }

  /** The neighbours of a corner, in loop order. */
  lemma CornerNeighbours()
    ensures NearbyTiles(3, 0, 0) == [(0, 1), (1, 0), (1, 1)]
  {
    var near := NearbyTiles(3, 0, 0);
    var want: seq<Cell> := [(0, 1), (1, 0), (1, 1)];
    forall c ensures c in near <==> c in want {
      assert c in near <==> InGrid(3, c) && Adjacent(c, (0, 0));
    }
    AscendingUnique(near, want);
  }

  /** Triggering the centre loses; there is no other bomb to show. */
  lemma CentreTriggerLoses(g: Game)
    requires g == CentreBomb
    ensures Valid(g) && Trigger(g, 1, 1) == Ok(Step(g.(gameOver := true), [GameLose(1, 1)]))
  {
    CentreNoOtherBomb(g);
    CentreTriggerIsLose(g);
    LoneBombLoss(g, 1, 1);
  }

  /** With no other bomb on the board, losing sends gameLose alone. */
  lemma LoneBombLoss(g: Game, x: int, y: int)
    requires WellFormed(g) && OtherBombCells(g, x, y) == []
    ensures Lose(g, x, y) == Step(g.(gameOver := true), [GameLose(x, y)])
  {
    assert MarkAll(AsBomb, []) == [];
    assert [GameLose(x, y)] + [] == [GameLose(x, y)];
  }

  lemma CentreTriggerIsLose(g: Game)
    requires g == CentreBomb
    ensures WellFormed(g) && Trigger(g, 1, 1) == Ok(Lose(g, 1, 1))
  {
    CentreBombValid();
    assert GetTile(g, 1, 1) == Ok(CentreTile(1, 1));
  }

  lemma CentreNoOtherBomb(g: Game)
    requires g == CentreBomb
    ensures Valid(g) && OtherBombCells(g, 1, 1) == []
  {
    CentreBombValid();
    CentreBombTiles();
    HeadIsMember(OtherBombCells(g, 1, 1));
  }

  /** Every safe tile touches the centre bomb, so hint has nothing to offer. */
  lemma CentreBombNoHint(g: Game, pick: int)
    requires g == CentreBomb
    ensures Valid(g) && |Available(g)| == 0 && Hint(g, pick) == Err(IllegalState)
  {
    CentreNothingAvailable(g);
  }

  lemma CentreNothingAvailable(g: Game)
    requires g == CentreBomb
    ensures Valid(g) && |Available(g)| == 0
  {
    CentreBombValid();
    NoSafeZeroTile(g);
    HeadIsMember(Available(g));
  }

  lemma NoSafeZeroTile(g: Game)
    requires g == CentreBomb
    ensures WellFormed(g)
    ensures forall c :: InGrid(3, c) && !At(g, c).discovered && !At(g, c).bomb ==> NearbyBombs(g, c.0, c.1) != 0
  {
    CentreBombValid();
    assert At(g, (1, 1)).bomb;
    forall c | InGrid(3, c) && c != (1, 1) ensures NearbyBombs(g, c.0, c.1) != 0 {
      BombNearby(g, c, (1, 1));
    }
  }

  /** A bomb next to a tile makes its count positive. */
  lemma BombNearby(g: Game, c: Cell, b: Cell)
    requires WellFormed(g) && InGrid(g.gridSize, b) && Adjacent(b, c) && At(g, b).bomb
    ensures NearbyBombs(g, c.0, c.1) != 0
  {
    assert b in NearbyTiles(g.gridSize, c.0, c.1);
  }

  // ---------------------------------------------------------------------
  // A real flood-fill: the only bomb in the far corner.

  /** A three-by-three board whose only bomb is at (2, 2). */
  function FarTile(x: int, y: int): Tile {
    Tile(x, y, x == 2 && y == 2, false, false)
  }

  const FarCorner := Game(3, [[FarTile(0, 0), FarTile(0, 1), FarTile(0, 2)],
                              [FarTile(1, 0), FarTile(1, 1), FarTile(1, 2)],
                              [FarTile(2, 0), FarTile(2, 1), FarTile(2, 2)]], 8, false)

  const FarLayout: seq<seq<bool>> := [[false, false, false], [false, false, false], [false, false, true]]

  /** The seven safe tiles other than (0, 0). */
  const FarOthers: set<Cell> := {(0, 1), (0, 2), (1, 0), (1, 1), (1, 2), (2, 0), (2, 1)}

  /** What the proofs below use of FarCorner. */
  ghost predicate FarShape(g: Game) {
    && Valid(g) && g.gridSize == 3 && g.remainingTiles == 8 && !g.gameOver
    && forall c :: InGrid(3, c) ==>
         !At(g, c).discovered && !At(g, c).flagged && (At(g, c).bomb <==> c == (2, 2))
  }

  lemma FarCornerTiles()
    ensures forall x, y :: 0 <= x < 3 && 0 <= y < 3 ==> FarCorner.tiles[x][y] == FarTile(x, y)
  {
    forall x, y | 0 <= x < 3 && 0 <= y < 3 ensures FarCorner.tiles[x][y] == FarTile(x, y) {
      if x == 0 {
      } else if x == 1 {
      } else {
      }
    }
  }

  lemma FarCornerHidden()
    ensures GridCount(FarCorner.tiles, IsHidden) == 8
  {
    var t := FarCorner.tiles;
    assert RowCount(t[0], IsHidden) == 3;
    assert RowCount(t[1], IsHidden) == 3;
    assert RowCount(t[2], IsHidden) == 2;
    assert t[1..][1..][1..] == [];
  }

  lemma FarCornerIsShape(g: Game)
    requires g == FarCorner
    ensures FarShape(g)
  {
    FarCornerTiles();
    FarCornerHidden();
  }

  /** FarCorner is what the constructor builds from its layout. */
  lemma FarCornerCreated()
    ensures Create(3, FarLayout) == FarCorner
  {
    var g := Create(3, FarLayout);
    FarCornerTiles();
    forall x, y | 0 <= x < 3 && 0 <= y < 3 ensures g.tiles[x][y] == FarCorner.tiles[x][y] {
      assert FarLayout[x][y] == (x == 2 && y == 2);
    }
    forall x | 0 <= x < 3 ensures g.tiles[x] == FarCorner.tiles[x] {
    }
    assert g.tiles == FarCorner.tiles;
    FarCornerHidden();
  }

  /** Triggering (0, 0) floods the whole board: the other seven safe tiles
      are announced with their counts, the game is won with count 0 on
      (0, 0), and the one bomb is flagged. */
  lemma FarCornerFloods(g: Game)
    requires g == FarCorner
    ensures Trigger(g, 0, 0).Ok?
    ensures var r := Trigger(g, 0, 0).value;
            && r.game.gameOver && r.game.remainingTiles == 0
            && (forall c :: InGrid(3, c) ==> At(r.game, c).discovered == (c != (2, 2)))
            && |r.events| == 9
            && (forall i :: 0 <= i < 7 ==> Announces(g, r.events[i]))
            && EventCells(r.events[..7]) == FarOthers
            && r.events[7..] == [GameWin(0, 0, 0), MakeFlag(2, 2)]
  {
    FarCornerIsShape(g);
    FarZeros(g);
    TriggerSafe(g, 0, 0);
    var r := Trigger(g, 0, 0).value;
    var fill :| RevealTrace(g, 0, 0, 0, fill, r);
    FarOutcome(g, r, fill);
  }

  /** The three tiles the flood passes through have no bomb around them. */
  lemma FarZeros(g: Game)
    requires FarShape(g)
    ensures NearbyBombs(g, 0, 0) == 0 && NearbyBombs(g, 0, 1) == 0 && NearbyBombs(g, 1, 0) == 0
  {
    NearbyBombsZero(g, 0, 0);
    NearbyBombsZero(g, 0, 1);
    NearbyBombsZero(g, 1, 0);
  }

  /** What a sound and complete trigger of (0, 0) has to do on FarCorner. */
  lemma FarOutcome(g: Game, r: Step, fill: seq<Event>)
    requires FarShape(g) && Valid(r.game) && r.game.gridSize == 3
    requires NearbyBombs(g, 0, 0) == 0 && NearbyBombs(g, 0, 1) == 0 && NearbyBombs(g, 1, 0) == 0
    requires RevealTrace(g, 0, 0, 0, fill, r)
    requires At(r.game, (0, 0)).discovered && (r.game.gameOver <==> r.game.remainingTiles == 0)
    requires AroundSettled(r.game, (0, 0)) && ZerosSettled(r.game, r.events)
    ensures r.game.gameOver && r.game.remainingTiles == 0
    ensures forall c :: InGrid(3, c) ==> At(r.game, c).discovered == (c != (2, 2))
    ensures |r.events| == 9
    ensures forall i :: 0 <= i < 7 ==> Announces(g, r.events[i])
    ensures EventCells(r.events[..7]) == FarOthers
    ensures r.events[7..] == [GameWin(0, 0, 0), MakeFlag(2, 2)]
  {
    FarReached(g, r, fill);
    FarBombStays(g, r, fill);
    FarState(r, fill);
    FarEvents(g, r, fill);
  }

  /** The board after the trigger: won, with only the bomb covered. */
  lemma FarState(r: Step, fill: seq<Event>)
    requires Valid(r.game) && r.game.gridSize == 3 && r.game.tiles[2][2].bomb
    requires r.game.remainingTiles == 8 - 1 - |fill|
    requires r.game.gameOver <==> r.game.remainingTiles == 0
    requires forall a, b :: 0 <= a < 3 && 0 <= b < 3 && (a, b) != (2, 2) ==> At(r.game, (a, b)).discovered
    ensures r.game.gameOver && r.game.remainingTiles == 0 && |fill| == 7
    ensures forall c :: InGrid(3, c) ==> At(r.game, c).discovered == (c != (2, 2))
  {
    FarWon(r.game);
  }

  /** Every tile but the bomb is discovered. */
  lemma FarReached(g: Game, r: Step, fill: seq<Event>)
    requires FarShape(g) && WellFormed(r.game) && r.game.gridSize == 3
    requires NearbyBombs(g, 0, 1) == 0 && NearbyBombs(g, 1, 0) == 0
    requires RevealTrace(g, 0, 0, 0, fill, r)
    requires At(r.game, (0, 0)).discovered
    requires AroundSettled(r.game, (0, 0)) && ZerosSettled(r.game, r.events)
    ensures forall a, b :: 0 <= a < 3 && 0 <= b < 3 && (a, b) != (2, 2) ==> At(r.game, (a, b)).discovered
  {
    FarOpens(g, r, fill);
    AllButFarOpen(r.game);
  }

  /** The notifications of the won trigger: seven announcements, gameWin,
      one makeFlag. */
  lemma FarEvents(g: Game, r: Step, fill: seq<Event>)
    requires FarShape(g) && WellFormed(r.game) && r.game.gridSize == 3
    requires RevealTrace(g, 0, 0, 0, fill, r)
    requires r.game.gameOver && |fill| == 7
    requires forall c :: InGrid(3, c) ==> At(r.game, c).discovered == (c != (2, 2))
    ensures |r.events| == 9
    ensures forall i :: 0 <= i < 7 ==> Announces(g, r.events[i])
    ensures EventCells(r.events[..7]) == FarOthers
    ensures r.events[7..] == [GameWin(0, 0, 0), MakeFlag(2, 2)]
  {
    DiscoveredAllAnnounced(g, r, 0, 0, 0, fill);
    FarFillCells(g, r.game, fill);
    FarTail(g, r, fill);
    WonFillAnnounced(g, r, 0, 0, 0, fill);
  }

  /** After the gameWin notification comes the single makeFlag. */
  lemma FarTail(g: Game, r: Step, fill: seq<Event>)
    requires FarShape(g) && WellFormed(r.game)
    requires RevealTrace(g, 0, 0, 0, fill, r) && r.game.gameOver
    ensures |r.events| == |fill| + 2
    ensures r.events[|fill|..] == [GameWin(0, 0, 0), MakeFlag(2, 2)]
  {
    var tail := r.events[|fill| + 1..];
    SingleBombFlags(g, tail, (2, 2));
    WonEvents(r.events, fill, GameWin(0, 0, 0), tail);
  }

  /** The flood reaches every safe tile: the neighbours of (0, 0), then
      those of the zero tiles (0, 1) and (1, 0). */
  lemma FarOpens(g: Game, r: Step, fill: seq<Event>)
    requires FarShape(g) && WellFormed(r.game) && r.game.gridSize == 3
    requires NearbyBombs(g, 0, 1) == 0 && NearbyBombs(g, 1, 0) == 0
    requires RevealTrace(g, 0, 0, 0, fill, r)
    requires At(r.game, (0, 0)).discovered
    requires AroundSettled(r.game, (0, 0)) && ZerosSettled(r.game, r.events)
    ensures At(r.game, (0, 1)).discovered && At(r.game, (0, 2)).discovered
    ensures At(r.game, (1, 0)).discovered && At(r.game, (1, 1)).discovered
    ensures At(r.game, (1, 2)).discovered && At(r.game, (2, 0)).discovered
    ensures At(r.game, (2, 1)).discovered
  {
    FarOpensNear(g, r, fill);
    FarOpensFrom(g, r, fill, (0, 1), (0, 2), (1, 2));
    FarOpensFrom(g, r, fill, (1, 0), (2, 0), (2, 1));
  }

  /** The neighbours of (0, 0). */
  lemma FarOpensNear(g: Game, r: Step, fill: seq<Event>)
    requires FarShape(g) && WellFormed(r.game) && r.game.gridSize == 3
    requires RevealTrace(g, 0, 0, 0, fill, r)
    requires AroundSettled(r.game, (0, 0))
    ensures At(r.game, (0, 1)).discovered && At(r.game, (1, 0)).discovered && At(r.game, (1, 1)).discovered
  {
    NoFlagsSettled(g, r, 0, 0, 0, fill, (0, 1));
    NoFlagsSettled(g, r, 0, 0, 0, fill, (1, 0));
    NoFlagsSettled(g, r, 0, 0, 0, fill, (1, 1));
  }

  /** Two neighbours `d` and `e` of a discovered zero tile `c`. */
  lemma FarOpensFrom(g: Game, r: Step, fill: seq<Event>, c: Cell, d: Cell, e: Cell)
    requires FarShape(g) && WellFormed(r.game) && r.game.gridSize == 3
    requires RevealTrace(g, 0, 0, 0, fill, r) && ZerosSettled(r.game, r.events)
    requires InGrid(3, c) && c != (0, 0) && At(r.game, c).discovered && NearbyBombs(g, c.0, c.1) == 0
    requires InGrid(3, d) && Adjacent(d, c) && InGrid(3, e) && Adjacent(e, c)
    ensures At(r.game, d).discovered && At(r.game, e).discovered
  {
    SpreadFrom(g, r, 0, 0, 0, fill, c);
    NoFlagsSettled(g, r, 0, 0, 0, fill, d);
    NoFlagsSettled(g, r, 0, 0, 0, fill, e);
  }

  /** The eight safe tiles discovered, as one statement over the grid. */
  lemma AllButFarOpen(h: Game)
    requires WellFormed(h) && h.gridSize == 3
    requires At(h, (0, 0)).discovered && At(h, (0, 1)).discovered && At(h, (0, 2)).discovered
    requires At(h, (1, 0)).discovered && At(h, (1, 1)).discovered && At(h, (1, 2)).discovered
    requires At(h, (2, 0)).discovered && At(h, (2, 1)).discovered
    ensures forall a, b :: 0 <= a < 3 && 0 <= b < 3 && (a, b) != (2, 2) ==> At(h, (a, b)).discovered
  {
    forall a, b | 0 <= a < 3 && 0 <= b < 3 && (a, b) != (2, 2) ensures At(h, (a, b)).discovered {
      if a == 0 {
      } else if a == 1 {
      } else {
      }
    }
  }

  /** The trigger leaves the bomb where it was. */
  lemma FarBombStays(g: Game, r: Step, fill: seq<Event>)
    requires FarShape(g) && WellFormed(r.game)
    requires RevealTrace(g, 0, 0, 0, fill, r)
    ensures r.game.tiles[2][2].bomb
  {
    var h := r.game.(gameOver := g.gameOver);
    assert InGrid(3, (2, 2)) && At(g, (2, 2)).bomb;
    assert h.tiles[2][2].bomb == g.tiles[2][2].bomb;
  }

  /** With every tile but the bomb discovered, nothing is left to uncover. */
  lemma FarWon(h: Game)
    requires Valid(h) && h.gridSize == 3 && h.tiles[2][2].bomb
    requires forall a, b :: 0 <= a < 3 && 0 <= b < 3 && (a, b) != (2, 2) ==> At(h, (a, b)).discovered
    ensures h.remainingTiles == 0
    ensures forall c :: InGrid(3, c) ==> At(h, c).discovered == (c != (2, 2))
  {
    forall x, y | 0 <= x < |h.tiles| && 0 <= y < |h.tiles[x]|
      ensures !Holds(IsHidden, h.tiles[x][y])
    {
      assert InGrid(3, (x, y));
    }
    GridCountNone(h.tiles, IsHidden);
  }

  /** The fill announced exactly the seven other safe tiles. */
  lemma FarFillCells(g: Game, h: Game, fill: seq<Event>)
    requires FarShape(g) && WellFormed(h) && h.gridSize == 3
    requires forall i :: 0 <= i < |fill| ==> Announces(g, fill[i])
    requires (0, 0) !in EventCells(fill)
    requires forall c :: InGrid(3, c) && c != (0, 0) && At(h, c).discovered ==> c in EventCells(fill)
    requires forall c :: InGrid(3, c) ==> At(h, c).discovered == (c != (2, 2))
    ensures EventCells(fill) == FarOthers
  {
    FarFillWithin(g, fill);
    forall c | c in FarOthers ensures c in EventCells(fill) {
      assert InGrid(3, c) && c != (0, 0) && c != (2, 2);
    }
  }

  /** Every announced cell is one of the seven. */
  lemma FarFillWithin(g: Game, fill: seq<Event>)
    requires FarShape(g)
    requires forall i :: 0 <= i < |fill| ==> Announces(g, fill[i])
    requires (0, 0) !in EventCells(fill)
    ensures forall c :: c in EventCells(fill) ==> c in FarOthers
  {
    forall c | c in EventCells(fill) ensures c in FarOthers {
      var i := CellIndex(fill, c);
      assert Announces(g, fill[i]);
      OtherSafe(c);
    }
  }

  /** The grid cells other than (0, 0) and (2, 2) are FarOthers. */
  lemma OtherSafe(c: Cell)
    requires InGrid(3, c) && c != (0, 0) && c != (2, 2)
    ensures c in FarOthers
  {
  }

  /** A won trigger's notifications: the fill, gameWin, then the sweep. */
  lemma WonEvents(evs: seq<Event>, fill: seq<Event>, e: Event, tail: seq<Event>)
    requires |evs| > |fill| && evs[..|fill|] == fill && evs[|fill|] == e && tail == evs[|fill| + 1..]
    ensures |evs| == |fill| + 1 + |tail|
    ensures evs[|fill|..] == [e] + tail
  {
    assert evs[|fill|..] == [evs[|fill|]] + evs[|fill| + 1..];
  }

  // ---------------------------------------------------------------------
  // The same trigger, unfolded: the order of the notifications. The fill
  // is depth-first: it finishes each zero tile's neighbours before it
  // returns to the list it was scanning.

  /** The order in which the fill from (0, 0) discovers FarCorner's tiles:
      (0, 0), (0, 1), (0, 2), (1, 1), (1, 2), (1, 0), (2, 0), (2, 1), and
      the bomb (2, 2) last, as it is never discovered. */
  function FarRank(c: Cell): int {
    if c.0 == 0 then c.1
    else if c.0 == 1 then (if c.1 == 0 then 5 else c.1 + 2)
    else if c.1 == 2 then 8 else c.1 + 6
  }

  /** Stage `k` of the fill on FarCorner: the first `k` tiles in that order
      are discovered and no others, 8 - k safe tiles remain covered, and
      nothing is flagged. */
  ghost predicate FarAfter(h: Game, k: int) {
    && WellFormed(h) && h.gridSize == 3 && !h.gameOver && h.remainingTiles == 8 - k
    && forall c {:trigger FarTileIs(h, c, k)} :: InGrid(3, c) ==> FarTileIs(h, c, k)
  }

  /** The tile at `c` at stage `k`: discovered exactly when it comes before
      stage `k`, not flagged, and a bomb exactly at (2, 2). */
  predicate FarTileIs(h: Game, c: Cell, k: int)
    requires WellFormed(h) && InGrid(h.gridSize, c)
  {
    && (At(h, c).discovered <==> FarRank(c) < k)
    && !At(h, c).flagged
    && (At(h, c).bomb <==> c == (2, 2))
  }

  /** Any one cell of a FarCorner stage. */
  lemma FarTileAt(h: Game, k: int, c: Cell)
    requires FarAfter(h, k) && InGrid(3, c)
    ensures FarTileIs(h, c, k)
  {
  }

  lemma FarShapeAfter(g: Game)
    requires FarShape(g)
    ensures FarAfter(g, 0)
  {
  }

  lemma FarAfterDiscover(h: Game, k: int, c: Cell)
    requires FarAfter(h, k) && InGrid(3, c) && FarRank(c) == k
    ensures FarAfter(DiscoverOne(h, c), k + 1)
  {
    forall d | InGrid(3, d) ensures FarTileIs(DiscoverOne(h, c), d, k + 1) {
      FarTileAt(h, k, d);
      assert FarRank(d) == FarRank(c) ==> d == c;
    }
  }

  /** On FarCorner a tile counts 1 next to (2, 2) and 0 elsewhere. */
  lemma FarCount(h: Game, k: int, c: Cell)
    requires FarAfter(h, k)
    ensures NearbyBombs(h, c.0, c.1) == if Adjacent(c, (2, 2)) then 1 else 0
  {
    FarOnlyBomb(h, k);
    NearbyBombsCount(h, c.0, c.1);
    OnlyBombAround(h, c);
  }

  /** The bomb layout of FarCorner. */
  predicate FarBombs(h: Game) {
    && WellFormed(h) && h.gridSize == 3
    && forall a, b :: 0 <= a < 3 && 0 <= b < 3 ==> (h.tiles[a][b].bomb <==> a == 2 && b == 2)
  }

  lemma FarOnlyBomb(h: Game, k: int)
    requires FarAfter(h, k)
    ensures FarBombs(h)
  {
    forall a, b | 0 <= a < 3 && 0 <= b < 3 ensures (h.tiles[a][b].bomb <==> a == 2 && b == 2) {
      FarTileAt(h, k, (a, b));
    }
  }

  lemma OnlyBombAround(h: Game, c: Cell)
    requires FarBombs(h)
    ensures |BombsAround(h, c.0, c.1)| == if Adjacent(c, (2, 2)) then 1 else 0
  {
    var s := BombsAround(h, c.0, c.1);
    forall d | d in s ensures d == (2, 2) {
    }
    if Adjacent(c, (2, 2)) {
      assert (2, 2) in s;
      assert s == {(2, 2)};
    } else {
      assert s == {};
    }
  }

  /** The neighbours of (x, y) on a 3-by-3 board are `want`, in loop order. */
  lemma NeighboursAre(x: int, y: int, want: seq<Cell>)
    requires Ascending(want)
    requires forall c :: c in want <==> InGrid(3, c) && Adjacent(c, (x, y))
    ensures NearbyTiles(3, x, y) == want
  {
    AscendingUnique(NearbyTiles(3, x, y), want);
  }

  lemma Near01()
    ensures NearbyTiles(3, 0, 1) == [(0, 0), (0, 2), (1, 0), (1, 1), (1, 2)]
  {
    NeighboursAre(0, 1, [(0, 0), (0, 2), (1, 0), (1, 1), (1, 2)]);
  }

  lemma Near02()
    ensures NearbyTiles(3, 0, 2) == [(0, 1), (1, 1), (1, 2)]
  {
    NeighboursAre(0, 2, [(0, 1), (1, 1), (1, 2)]);
  }

  lemma Near10()
    ensures NearbyTiles(3, 1, 0) == [(0, 0), (0, 1), (1, 1), (2, 0), (2, 1)]
  {
    NeighboursAre(1, 0, [(0, 0), (0, 1), (1, 1), (2, 0), (2, 1)]);
  }

  lemma Near20()
    ensures NearbyTiles(3, 2, 0) == [(1, 0), (1, 1), (2, 1)]
  {
    NeighboursAre(2, 0, [(1, 0), (1, 1), (2, 1)]);
  }

  /** The fill passes over a discovered or flagged head cell. */
  lemma FillSkip(g: Game, c: Cell, rest: seq<Cell>)
    requires WellFormed(g) && InGrid(g.gridSize, c) && forall d :: d in rest ==> InGrid(g.gridSize, d)
    requires At(g, c).discovered || At(g, c).flagged
    ensures UncoverFrom(g, [c] + rest) == UncoverFrom(g, rest)
  {
    assert ([c] + rest)[1..] == rest;
  }

  /** Discovering the head cell leaves nothing to uncover: a win. */
  lemma FillWins(g: Game, c: Cell, rest: seq<Cell>, n: int)
    requires WellFormed(g) && InGrid(g.gridSize, c) && forall d :: d in rest ==> InGrid(g.gridSize, d)
    requires !At(g, c).discovered && !At(g, c).flagged
    requires n == NearbyBombs(g, c.0, c.1) && DiscoverOne(g, c).remainingTiles <= 0
    ensures UncoverFrom(g, [c] + rest) == Flood(true, DiscoverOne(g, c), [MakeUncovered(c.0, c.1, n)])
  {
  }

  /** A head cell with bombs around: announce it and scan on. */
  lemma FillNumber(g: Game, c: Cell, rest: seq<Cell>, n: int)
    requires WellFormed(g) && InGrid(g.gridSize, c) && forall d :: d in rest ==> InGrid(g.gridSize, d)
    requires !At(g, c).discovered && !At(g, c).flagged
    requires n == NearbyBombs(g, c.0, c.1) && n != 0 && DiscoverOne(g, c).remainingTiles > 0
    ensures var r := UncoverFrom(DiscoverOne(g, c), rest);
            UncoverFrom(g, [c] + rest) == Flood(r.won, r.game, [MakeUncovered(c.0, c.1, n)] + r.events)
  {
    assert ([c] + rest)[1..] == rest;
  }

  /** A zero head cell whose own fill wins. */
  lemma FillZeroWins(g: Game, c: Cell, rest: seq<Cell>, near: seq<Cell>)
    requires WellFormed(g) && InGrid(g.gridSize, c) && forall d :: d in rest ==> InGrid(g.gridSize, d)
    requires !At(g, c).discovered && !At(g, c).flagged
    requires NearbyBombs(g, c.0, c.1) == 0 && DiscoverOne(g, c).remainingTiles > 0
    requires near == NearbyTiles(g.gridSize, c.0, c.1)
    requires UncoverFrom(DiscoverOne(g, c), near).won
    ensures var sub := UncoverFrom(DiscoverOne(g, c), near);
            UncoverFrom(g, [c] + rest) == Flood(true, sub.game, [MakeUncovered(c.0, c.1, 0)] + sub.events)
  {
  }

  /** A zero head cell whose own fill ends without a win: scan on. */
  lemma FillZeroGoesOn(g: Game, c: Cell, rest: seq<Cell>, near: seq<Cell>)
    requires WellFormed(g) && InGrid(g.gridSize, c) && forall d :: d in rest ==> InGrid(g.gridSize, d)
    requires !At(g, c).discovered && !At(g, c).flagged
    requires NearbyBombs(g, c.0, c.1) == 0 && DiscoverOne(g, c).remainingTiles > 0
    requires near == NearbyTiles(g.gridSize, c.0, c.1)
    requires !UncoverFrom(DiscoverOne(g, c), near).won
    ensures var sub := UncoverFrom(DiscoverOne(g, c), near);
            var r := UncoverFrom(sub.game, rest);
            UncoverFrom(g, [c] + rest) == Flood(r.won, r.game, [MakeUncovered(c.0, c.1, 0)] + sub.events + r.events)
  {
    assert ([c] + rest)[1..] == rest;
  }

  /** A fill over nothing ends there. */
  lemma FillEnd(g: Game)
    requires WellFormed(g)
    ensures UncoverFrom(g, []) == Flood(false, g, [])
  {
  }

  /** A discovered tile of a FarCorner stage. */
  lemma FarSeen(h: Game, k: int, c: Cell)
    requires FarAfter(h, k) && InGrid(3, c) && FarRank(c) < k
    ensures At(h, c).discovered
  {
    FarTileAt(h, k, c);
  }

  /** Uncovering the next tile of a FarCorner stage: what the fill reads
      there, and the stage it leaves. */
  lemma FarStep(h: Game, k: int, c: Cell)
    requires FarAfter(h, k) && InGrid(3, c) && FarRank(c) == k
    ensures !At(h, c).discovered && !At(h, c).flagged
    ensures NearbyBombs(h, c.0, c.1) == if Adjacent(c, (2, 2)) then 1 else 0
    ensures FarAfter(DiscoverOne(h, c), k + 1)
  {
    FarTileAt(h, k, c);
    FarCount(h, k, c);
    FarAfterDiscover(h, k, c);
  }

  // The fill over each list it scans on FarCorner, from only the tile
  // facts it reads there. A neighbour list is named by NearbyTiles, as
  // the fill itself names it; the remainder of a list is written out.

  /** The first two neighbours of (2, 0) are already discovered. */
  lemma Skip20(h: Game)
    requires WellFormed(h) && h.gridSize == 3
    requires At(h, (1, 0)).discovered && At(h, (1, 1)).discovered
    ensures UncoverFrom(h, NearbyTiles(h.gridSize, 2, 0)) == UncoverFrom(h, [(2, 1)])
  {
    Near20();
    FillSkip(h, (1, 0), [(1, 1), (2, 1)]);
    FillSkip(h, (1, 1), [(2, 1)]);
    assert [(1, 0)] + [(1, 1), (2, 1)] == [(1, 0), (1, 1), (2, 1)];
  }

  lemma Scan20(h: Game) returns (f: Flood)
    requires WellFormed(h) && h.gridSize == 3 && h.remainingTiles == 1
    requires At(h, (1, 0)).discovered && At(h, (1, 1)).discovered
    requires !At(h, (2, 1)).discovered && !At(h, (2, 1)).flagged && NearbyBombs(h, 2, 1) == 1
    ensures f == UncoverFrom(h, NearbyTiles(h.gridSize, 2, 0))
    ensures f == Flood(true, DiscoverOne(h, (2, 1)), [MakeUncovered(2, 1, 1)])
  {
    Skip20(h);
    FillWins(h, (2, 1), [], 1);
    assert [(2, 1)] + [] == [(2, 1)];
    f := UncoverFrom(h, [(2, 1)]);
  }

  /** The first three neighbours of (1, 0) are already discovered. */
  lemma Skip10(h: Game)
    requires WellFormed(h) && h.gridSize == 3
    requires At(h, (0, 0)).discovered && At(h, (0, 1)).discovered && At(h, (1, 1)).discovered
    ensures UncoverFrom(h, NearbyTiles(h.gridSize, 1, 0)) == UncoverFrom(h, [(2, 0), (2, 1)])
  {
    Near10();
    FillSkip(h, (0, 0), [(0, 1), (1, 1), (2, 0), (2, 1)]);
    FillSkip(h, (0, 1), [(1, 1), (2, 0), (2, 1)]);
    FillSkip(h, (1, 1), [(2, 0), (2, 1)]);
  }

  lemma Scan10(h: Game, sub: Flood) returns (f: Flood)
    requires WellFormed(h) && h.gridSize == 3 && h.remainingTiles == 2
    requires At(h, (0, 0)).discovered && At(h, (0, 1)).discovered && At(h, (1, 1)).discovered
    requires !At(h, (2, 0)).discovered && !At(h, (2, 0)).flagged && NearbyBombs(h, 2, 0) == 0
    requires sub == UncoverFrom(DiscoverOne(h, (2, 0)), NearbyTiles(h.gridSize, 2, 0)) && sub.won
    ensures f == UncoverFrom(h, NearbyTiles(h.gridSize, 1, 0))
    ensures f == Flood(true, sub.game, [MakeUncovered(2, 0, 0)] + sub.events)
  {
    Skip10(h);
    FillZeroWins(h, (2, 0), [(2, 1)], NearbyTiles(h.gridSize, 2, 0));
    f := UncoverFrom(h, [(2, 0)] + [(2, 1)]);
  }

  lemma Scan01Rest(h: Game, sub: Flood) returns (f: Flood)
    requires WellFormed(h) && h.gridSize == 3 && h.remainingTiles == 3
    requires !At(h, (1, 0)).discovered && !At(h, (1, 0)).flagged && NearbyBombs(h, 1, 0) == 0
    requires sub == UncoverFrom(DiscoverOne(h, (1, 0)), NearbyTiles(h.gridSize, 1, 0)) && sub.won
    ensures f == UncoverFrom(h, [(1, 0), (1, 1), (1, 2)])
    ensures f == Flood(true, sub.game, [MakeUncovered(1, 0, 0)] + sub.events)
  {
    FillZeroWins(h, (1, 0), [(1, 1), (1, 2)], NearbyTiles(h.gridSize, 1, 0));
    f := UncoverFrom(h, [(1, 0)] + [(1, 1), (1, 2)]);
  }

  lemma Scan02(h: Game, r: Flood) returns (f: Flood)
    requires WellFormed(h) && h.gridSize == 3 && h.remainingTiles == 5
    requires At(h, (0, 1)).discovered
    requires !At(h, (1, 1)).discovered && !At(h, (1, 1)).flagged && NearbyBombs(h, 1, 1) == 1
    requires r == UncoverFrom(DiscoverOne(h, (1, 1)), [(1, 2)])
    ensures f == UncoverFrom(h, NearbyTiles(h.gridSize, 0, 2))
    ensures f == Flood(r.won, r.game, [MakeUncovered(1, 1, 1)] + r.events)
  {
    Near02();
    FillSkip(h, (0, 1), [(1, 1), (1, 2)]);
    FillNumber(h, (1, 1), [(1, 2)], 1);
    f := UncoverFrom(h, [(0, 1)] + [(1, 1), (1, 2)]);
  }

  lemma Scan12(h: Game) returns (f: Flood)
    requires WellFormed(h) && h.gridSize == 3 && h.remainingTiles == 4
    requires !At(h, (1, 2)).discovered && !At(h, (1, 2)).flagged && NearbyBombs(h, 1, 2) == 1
    ensures f == UncoverFrom(h, [(1, 2)])
    ensures f == Flood(false, DiscoverOne(h, (1, 2)), [MakeUncovered(1, 2, 1)])
  {
    FillNumber(h, (1, 2), [], 1);
    FillEnd(DiscoverOne(h, (1, 2)));
    assert [(1, 2)] + [] == [(1, 2)];
    f := UncoverFrom(h, [(1, 2)]);
  }

  lemma Scan01(h: Game, sub: Flood, rest: Flood) returns (f: Flood)
    requires WellFormed(h) && h.gridSize == 3 && h.remainingTiles == 6
    requires At(h, (0, 0)).discovered
    requires !At(h, (0, 2)).discovered && !At(h, (0, 2)).flagged && NearbyBombs(h, 0, 2) == 0
    requires sub == UncoverFrom(DiscoverOne(h, (0, 2)), NearbyTiles(h.gridSize, 0, 2)) && !sub.won
    requires rest == UncoverFrom(sub.game, [(1, 0), (1, 1), (1, 2)])
    ensures f == UncoverFrom(h, NearbyTiles(h.gridSize, 0, 1))
    ensures f == Flood(rest.won, rest.game, [MakeUncovered(0, 2, 0)] + sub.events + rest.events)
  {
    Near01();
    FillSkip(h, (0, 0), [(0, 2), (1, 0), (1, 1), (1, 2)]);
    FillZeroGoesOn(h, (0, 2), [(1, 0), (1, 1), (1, 2)], NearbyTiles(h.gridSize, 0, 2));
    f := UncoverFrom(h, [(0, 0)] + [(0, 2), (1, 0), (1, 1), (1, 2)]);
  }

  lemma Scan00(h: Game, sub: Flood) returns (f: Flood)
    requires WellFormed(h) && h.gridSize == 3 && h.remainingTiles == 7
    requires !At(h, (0, 1)).discovered && !At(h, (0, 1)).flagged && NearbyBombs(h, 0, 1) == 0
    requires sub == UncoverFrom(DiscoverOne(h, (0, 1)), NearbyTiles(h.gridSize, 0, 1)) && sub.won
    ensures f == UncoverFrom(h, NearbyTiles(h.gridSize, 0, 0))
    ensures f == Flood(true, sub.game, [MakeUncovered(0, 1, 0)] + sub.events)
  {
    CornerNeighbours();
    FillZeroWins(h, (0, 1), [(1, 0), (1, 1)], NearbyTiles(h.gridSize, 0, 1));
    f := UncoverFrom(h, [(0, 1)] + [(1, 0), (1, 1)]);
  }

  /** Scanning the neighbours of (2, 0): the last safe tile wins. */
  lemma FarFillAt20(h: Game) returns (f: Flood)
    requires FarAfter(h, 7)
    ensures f == UncoverFrom(h, NearbyTiles(h.gridSize, 2, 0))
    ensures f.won && f.events == [MakeUncovered(2, 1, 1)] && FarAfter(f.game, 8)
  {
    FarSeen(h, 7, (1, 0));
    FarSeen(h, 7, (1, 1));
    FarStep(h, 7, (2, 1));
    f := Scan20(h);
  }

  /** Scanning the neighbours of (1, 0): (2, 0) is a zero and recurses. */
  lemma FarFillAt10(h: Game) returns (f: Flood)
    requires FarAfter(h, 6)
    ensures f == UncoverFrom(h, NearbyTiles(h.gridSize, 1, 0))
    ensures f.won && f.events == [MakeUncovered(2, 0, 0), MakeUncovered(2, 1, 1)]
    ensures FarAfter(f.game, 8)
  {
    FarSeen(h, 6, (0, 0));
    FarSeen(h, 6, (0, 1));
    FarSeen(h, 6, (1, 1));
    FarStep(h, 6, (2, 0));
    var sub := FarFillAt20(DiscoverOne(h, (2, 0)));
    f := Scan10(h, sub);
    PrependOne(MakeUncovered(2, 0, 0), MakeUncovered(2, 1, 1));
  }

  /** Scanning the rest of (0, 1)'s neighbours: (1, 0) is a zero and recurses. */
  lemma FarFillAt01Rest(h: Game) returns (f: Flood)
    requires FarAfter(h, 5)
    ensures f == UncoverFrom(h, [(1, 0), (1, 1), (1, 2)])
    ensures f.won && f.events == [MakeUncovered(1, 0, 0), MakeUncovered(2, 0, 0), MakeUncovered(2, 1, 1)]
    ensures FarAfter(f.game, 8)
  {
    FarStep(h, 5, (1, 0));
    var sub := FarFillAt10(DiscoverOne(h, (1, 0)));
    f := Scan01Rest(h, sub);
    PrependTwo(MakeUncovered(1, 0, 0), MakeUncovered(2, 0, 0), MakeUncovered(2, 1, 1));
  }

  /** Scanning the neighbours of (0, 2): two tiles with count 1. */
  lemma FarFillAt02(h: Game) returns (f: Flood)
    requires FarAfter(h, 3)
    ensures f == UncoverFrom(h, NearbyTiles(h.gridSize, 0, 2))
    ensures !f.won && f.events == [MakeUncovered(1, 1, 1), MakeUncovered(1, 2, 1)]
    ensures FarAfter(f.game, 5)
  {
    FarSeen(h, 3, (0, 1));
    FarStep(h, 3, (1, 1));
    FarStep(DiscoverOne(h, (1, 1)), 4, (1, 2));
    var r := Scan12(DiscoverOne(h, (1, 1)));
    f := Scan02(h, r);
    PrependOne(MakeUncovered(1, 1, 1), MakeUncovered(1, 2, 1));
  }

  /** Scanning the neighbours of (0, 1): (0, 2) is a zero and recurses,
      then the scan goes on to (1, 0). */
  lemma FarFillAt01(h: Game) returns (f: Flood)
    requires FarAfter(h, 2)
    ensures f == UncoverFrom(h, NearbyTiles(h.gridSize, 0, 1))
    ensures f.won
    ensures f.events == [MakeUncovered(0, 2, 0), MakeUncovered(1, 1, 1), MakeUncovered(1, 2, 1),
                         MakeUncovered(1, 0, 0), MakeUncovered(2, 0, 0), MakeUncovered(2, 1, 1)]
    ensures FarAfter(f.game, 8)
  {
    FarSeen(h, 2, (0, 0));
    FarStep(h, 2, (0, 2));
    var sub := FarFillAt02(DiscoverOne(h, (0, 2)));
    var rest := FarFillAt01Rest(sub.game);
    f := Scan01(h, sub, rest);
    JoinThree(MakeUncovered(0, 2, 0), MakeUncovered(1, 1, 1), MakeUncovered(1, 2, 1),
              MakeUncovered(1, 0, 0), MakeUncovered(2, 0, 0), MakeUncovered(2, 1, 1));
  }

  /** The fill from (0, 0): (0, 1) is a zero and recurses, and the win
      comes before the scan returns. */
  lemma FarFillAt00(h: Game) returns (f: Flood)
    requires FarAfter(h, 1)
    ensures f == UncoverFrom(h, NearbyTiles(h.gridSize, 0, 0))
    ensures f.won
    ensures f.events == [MakeUncovered(0, 1, 0), MakeUncovered(0, 2, 0), MakeUncovered(1, 1, 1),
                         MakeUncovered(1, 2, 1), MakeUncovered(1, 0, 0), MakeUncovered(2, 0, 0),
                         MakeUncovered(2, 1, 1)]
    ensures FarAfter(f.game, 8)
    ensures Settle(h, 0, 0, 0).game.gameOver
    ensures Settle(h, 0, 0, 0).events ==
              [MakeUncovered(0, 1, 0), MakeUncovered(0, 2, 0), MakeUncovered(1, 1, 1),
               MakeUncovered(1, 2, 1), MakeUncovered(1, 0, 0), MakeUncovered(2, 0, 0),
               MakeUncovered(2, 1, 1), GameWin(0, 0, 0), MakeFlag(2, 2)]
  {
    FarStep(h, 1, (0, 1));
    var sub := FarFillAt01(DiscoverOne(h, (0, 1)));
    f := Scan00(h, sub);
    PrependSix(MakeUncovered(0, 1, 0), MakeUncovered(0, 2, 0), MakeUncovered(1, 1, 1), MakeUncovered(1, 2, 1),
               MakeUncovered(1, 0, 0), MakeUncovered(2, 0, 0), MakeUncovered(2, 1, 1));
    FarBombCells(f.game);
    FarWinEvents(h, f);
    AppendTwo(MakeUncovered(0, 1, 0), MakeUncovered(0, 2, 0), MakeUncovered(1, 1, 1), MakeUncovered(1, 2, 1),
              MakeUncovered(1, 0, 0), MakeUncovered(2, 0, 0), MakeUncovered(2, 1, 1),
              GameWin(0, 0, 0), MakeFlag(2, 2));
  }

  /** After the win the one bomb is flagged. */
  lemma FarBombCells(h: Game)
    requires FarAfter(h, 8)
    ensures BombCells(h) == [(2, 2)]
  {
    forall c | InGrid(3, c) ensures At(h, c).bomb <==> c == (2, 2) {
      FarTileAt(h, 8, c);
    }
    AscendingUnique(BombCells(h), [(2, 2)]);
  }

  /** Triggering (0, 0) on FarCorner sends exactly these notifications, in
      this order: the fill depth-first, then gameWin, then the flag. */
  lemma FarCornerOrder(g: Game)
    requires g == FarCorner
    ensures Trigger(g, 0, 0).Ok?
    ensures Trigger(g, 0, 0).value.game.gameOver
    ensures Trigger(g, 0, 0).value.events ==
              [MakeUncovered(0, 1, 0), MakeUncovered(0, 2, 0), MakeUncovered(1, 1, 1),
               MakeUncovered(1, 2, 1), MakeUncovered(1, 0, 0), MakeUncovered(2, 0, 0),
               MakeUncovered(2, 1, 1), GameWin(0, 0, 0), MakeFlag(2, 2)]
  {
    FarCornerIsShape(g);
    FarShapeOrder(g);
  }

  /** The same for any board of FarCorner's shape. */
  lemma FarShapeOrder(g: Game)
    requires FarShape(g)
    ensures Trigger(g, 0, 0).Ok?
    ensures Trigger(g, 0, 0).value.game.gameOver
    ensures Trigger(g, 0, 0).value.events ==
              [MakeUncovered(0, 1, 0), MakeUncovered(0, 2, 0), MakeUncovered(1, 1, 1),
               MakeUncovered(1, 2, 1), MakeUncovered(1, 0, 0), MakeUncovered(2, 0, 0),
               MakeUncovered(2, 1, 1), GameWin(0, 0, 0), MakeFlag(2, 2)]
  {
    FarShapeAfter(g);
    TriggerIsSettle(g, 0, 0);
    FarCount(g, 0, (0, 0));
    FarFromStart(g);
  }

  /** Discovering (0, 0) and settling: the fill runs to the win. */
  lemma FarFromStart(g: Game)
    requires FarAfter(g, 0)
    ensures var r := Settle(DiscoverOne(g, (0, 0)), 0, 0, 0);
            && r.game.gameOver
            && r.events ==
                 [MakeUncovered(0, 1, 0), MakeUncovered(0, 2, 0), MakeUncovered(1, 1, 1),
                  MakeUncovered(1, 2, 1), MakeUncovered(1, 0, 0), MakeUncovered(2, 0, 0),
                  MakeUncovered(2, 1, 1), GameWin(0, 0, 0), MakeFlag(2, 2)]
  {
    FarAfterDiscover(g, 0, (0, 0));
    var f := FarFillAt00(DiscoverOne(g, (0, 0)));
  }

  lemma AppendTwo(a: Event, b: Event, c: Event, d: Event, e: Event, f: Event, g: Event, v: Event, w: Event)
    ensures [a, b, c, d, e, f, g] + [v, w] == [a, b, c, d, e, f, g, v, w]
  {
  }

  /** The fill from (0, 0) wins, so the trigger ends with gameWin and the
      flag on the one bomb. */
  lemma FarWinEvents(g1: Game, f: Flood)
    requires WellFormed(g1) && g1.gridSize == 3 && g1.remainingTiles == 7
    requires f == UncoverFrom(g1, NearbyTiles(g1.gridSize, 0, 0)) && f.won && BombCells(f.game) == [(2, 2)]
    ensures Settle(g1, 0, 0, 0).game.gameOver
    ensures Settle(g1, 0, 0, 0).events == f.events + [GameWin(0, 0, 0), MakeFlag(2, 2)]
  {
    assert UncoverAdjacentZeros(g1, 0, 0) == f;
    var w := Settle(g1, 0, 0, 0);
    assert w == Win(f.game, 0, 0, 0, f.events);
    FlagOne();
    AppendPair(f.events, GameWin(0, 0, 0), MakeFlag(2, 2));
  }

  lemma FlagOne()
    ensures MarkAll(AsFlag, [(2, 2)]) == [MakeFlag(2, 2)]
  {
  }

  lemma PrependOne(a: Event, b: Event)
    ensures [a] + [b] == [a, b]
  {
  }

  lemma PrependTwo(a: Event, b: Event, c: Event)
    ensures [a] + [b, c] == [a, b, c]
  {
  }

  lemma PrependSix(a: Event, b: Event, c: Event, d: Event, e: Event, f: Event, g: Event)
    ensures [a] + [b, c, d, e, f, g] == [a, b, c, d, e, f, g]
  {
  }

  lemma JoinThree(a: Event, b: Event, c: Event, d: Event, e: Event, f: Event)
    ensures [a] + [b, c] + [d, e, f] == [a, b, c, d, e, f]
  {
  }

  lemma AppendPair(a: seq<Event>, e: Event, e': Event)
    ensures a + [e] + [e'] == a + [e, e']
  {
  }

  // ---------------------------------------------------------------------
  // Reading a trigger's RevealTrace on a board without flags.

  /** Without flags on the board, a settled tile is a discovered one. */
  lemma NoFlagsSettled(g: Game, r: Step, x: int, y: int, k: int, fill: seq<Event>, d: Cell)
    requires Valid(g) && WellFormed(r.game) && RevealTrace(g, x, y, k, fill, r)
    requires forall c :: InGrid(g.gridSize, c) ==> !At(g, c).flagged
    requires InGrid(g.gridSize, d) && Settled(r.game, d)
    ensures At(r.game, d).discovered
  {
    var h := r.game.(gameOver := g.gameOver);
    assert At(h, d) == At(r.game, d);
    assert !At(g, d).flagged;
  }

  /** A tile the trigger discovered, other than the triggered one, was
      announced by the fill. */
  lemma DiscoveredWasAnnounced(g: Game, r: Step, x: int, y: int, k: int, fill: seq<Event>, c: Cell)
    requires Valid(g) && WellFormed(r.game) && RevealTrace(g, x, y, k, fill, r)
    requires InGrid(g.gridSize, c) && c != (x, y) && !At(g, c).discovered && At(r.game, c).discovered
    ensures c in EventCells(fill)
  {
    var h := r.game.(gameOver := g.gameOver);
    assert At(h, c) == At(r.game, c);
  }

  /** Every tile the trigger discovered, other than the triggered one, was
      announced by the fill. */
  lemma DiscoveredAllAnnounced(g: Game, r: Step, x: int, y: int, k: int, fill: seq<Event>)
    requires Valid(g) && WellFormed(r.game) && RevealTrace(g, x, y, k, fill, r)
    ensures forall c :: InGrid(g.gridSize, c) && c != (x, y) && !At(g, c).discovered && At(r.game, c).discovered
              ==> c in EventCells(fill)
  {
    forall c | InGrid(g.gridSize, c) && c != (x, y) && !At(g, c).discovered && At(r.game, c).discovered
      ensures c in EventCells(fill)
    {
      DiscoveredWasAnnounced(g, r, x, y, k, fill, c);
    }
  }

  /** Around a zero tile the fill discovered, everything is settled. */
  lemma SpreadFrom(g: Game, r: Step, x: int, y: int, k: int, fill: seq<Event>, c: Cell)
    requires Valid(g) && WellFormed(r.game) && RevealTrace(g, x, y, k, fill, r)
    requires ZerosSettled(r.game, r.events)
    requires InGrid(g.gridSize, c) && c != (x, y) && !At(g, c).discovered && At(r.game, c).discovered
    requires NearbyBombs(g, c.0, c.1) == 0
    ensures AroundSettled(r.game, c)
  {
    DiscoveredWasAnnounced(g, r, x, y, k, fill, c);
    var i := CellIndex(fill, c);
    WonFillAnnounced(g, r, x, y, k, fill);
    ZeroAnnounced(g, r.game, r.events, i);
  }

  /** Where in `evs` the notification about `c` sits. */
  lemma CellIndex(evs: seq<Event>, c: Cell) returns (i: nat)
    requires c in EventCells(evs)
    ensures i < |evs| && (evs[i].x, evs[i].y) == c
  {
    var e :| e in evs && (e.x, e.y) == c;
    i :| i < |evs| && evs[i] == e;
  }

  /** A notification announcing a zero count is followed by its whole
      neighbourhood being settled. */
  lemma ZeroAnnounced(g: Game, h: Game, evs: seq<Event>, i: nat)
    requires WellFormed(g) && WellFormed(h) && ZerosSettled(h, evs)
    requires i < |evs| && Announces(g, evs[i]) && NearbyBombs(g, evs[i].x, evs[i].y) == 0
    ensures AroundSettled(h, (evs[i].x, evs[i].y))
  {
    assert ZeroNotice(evs[i]);
  }

  /** The fill's notifications are the first ones the trigger sends. */
  lemma FillIsPrefix(g: Game, r: Step, x: int, y: int, k: int, fill: seq<Event>)
    requires WellFormed(g) && WellFormed(r.game) && RevealTrace(g, x, y, k, fill, r)
    ensures |fill| <= |r.events| && r.events[..|fill|] == fill
  {
    if !r.game.gameOver {
      assert r.events[..|fill|] == fill;
    }
  }

  /** When the trigger wins, its first notifications are the fill's. */
  lemma WonFillAnnounced(g: Game, r: Step, x: int, y: int, k: int, fill: seq<Event>)
    requires WellFormed(g) && WellFormed(r.game) && RevealTrace(g, x, y, k, fill, r)
    ensures |fill| <= |r.events|
    ensures forall i :: 0 <= i < |fill| ==> Announces(g, r.events[i])
  {
    FillIsPrefix(g, r, x, y, k, fill);
    forall i | 0 <= i < |fill| ensures Announces(g, r.events[i]) {
      assert r.events[i] == r.events[..|fill|][i];
    }
  }

  /** With a single bomb `b`, the closing makeFlag sweep is one call. */
  lemma SingleBombFlags(g: Game, evs: seq<Event>, b: Cell)
    requires WellFormed(g) && InGrid(g.gridSize, b) && Sweep(g, evs, AsFlag, Bombs)
    requires forall c :: InGrid(g.gridSize, c) ==> (At(g, c).bomb <==> c == b)
    ensures evs == [MakeFlag(b.0, b.1)]
  {
    var ps := Positions(evs);
    forall c ensures c in ps <==> c in [b] {
      if c in ps {
        var i :| 0 <= i < |ps| && ps[i] == c;
        assert evs[i] == MarkEvent(AsFlag, c);
        assert Selected(g, Bombs, c);
      }
      if c == b {
        assert Selected(g, Bombs, b);
        var i :| 0 <= i < |evs| && evs[i] == MakeFlag(b.0, b.1);
        assert ps[i] == b;
      }
    }
    AscendingUnique(ps, [b]);
    assert evs[0] == MarkEvent(AsFlag, ps[0]);
  }
}
