/** The game engine: an n-by-n grid of tiles, the count of non-bomb tiles
    still covered, and the game-over latch. Every player action is a pure
    function from the engine state to the next state together with the
    notifications it sends to the host, in the order the host receives them. */
module Minesweeper {
  import opened Utils
  import opened Tiles
  import opened Board

  /** The two exceptions the engine throws. */
  datatype Failure =
    | IllegalArgument  // a coordinate outside the grid
    | IllegalState     // a hint was asked for with no safe zero tile left

  datatype Result<T> = Ok(value: T) | Err(error: Failure)

  /** The host callbacks, one constructor each. */
  datatype Event =
    | MakeDefault(x: int, y: int)
    | MakeUncovered(x: int, y: int, n: int)
    | MakeFlag(x: int, y: int)
    | MakeBomb(x: int, y: int)
    | GameLose(x: int, y: int)
    | GameWin(x: int, y: int, n: int)

  /** tiles[x][y] is the tile at column x, row y. */
  datatype Game = Game(gridSize: int, tiles: seq<seq<Tile>>, remainingTiles: int, gameOver: bool)

  /** The state after an action and the notifications it sent, in order. */
  datatype Step = Step(game: Game, events: seq<Event>)

  /** The shape of the tile array: n rows of n tiles, each tile at its own position. */
  predicate WellFormed(g: Game) {
    && g.gridSize >= 0
    && |g.tiles| == g.gridSize
    && (forall x :: 0 <= x < g.gridSize ==> |g.tiles[x]| == g.gridSize)
    && (forall x, y :: 0 <= x < g.gridSize && 0 <= y < g.gridSize ==>
          g.tiles[x][y].x == x && g.tiles[x][y].y == y)
  }

  /** The invariant the engine keeps between actions: no tile is both
      discovered and flagged, no bomb is ever discovered, and remainingTiles
      is the number of non-bomb tiles still covered. */
  predicate Valid(g: Game) {
    && WellFormed(g)
    && (forall x, y :: 0 <= x < g.gridSize && 0 <= y < g.gridSize ==>
          !(g.tiles[x][y].discovered && g.tiles[x][y].flagged))
    && (forall x, y :: 0 <= x < g.gridSize && 0 <= y < g.gridSize ==>
          !(g.tiles[x][y].discovered && g.tiles[x][y].bomb))
    && g.remainingTiles == GridCount(g.tiles, IsHidden)
  }

  function At(g: Game, c: Cell): Tile
    requires WellFormed(g) && InGrid(g.gridSize, c)
  {
    g.tiles[c.0][c.1]
  }

  /** Same size and the same bombs. */
  predicate SameBoard(g: Game, h: Game)
    requires WellFormed(g) && WellFormed(h)
  {
    && h.gridSize == g.gridSize
    && forall x, y :: 0 <= x < g.gridSize && 0 <= y < g.gridSize ==>
         h.tiles[x][y].bomb == g.tiles[x][y].bomb
  }

  /** Replaces the tile at `c`, keeping its position. */
  function UpdateTile(g: Game, c: Cell, t: Tile): (r: Game)
    requires WellFormed(g) && InGrid(g.gridSize, c) && t.x == c.0 && t.y == c.1
    ensures WellFormed(r)
    ensures r.gridSize == g.gridSize && r.remainingTiles == g.remainingTiles && r.gameOver == g.gameOver
    ensures forall a, b :: 0 <= a < g.gridSize && 0 <= b < g.gridSize ==>
              r.tiles[a][b] == if (a, b) == c then t else g.tiles[a][b]
  {
    g.(tiles := g.tiles[c.0 := g.tiles[c.0][c.1 := t]])
  }

  // ---------------------------------------------------------------------
  // Grid creation.

  /** A bomb layout of the right shape: the outcome of the per-cell coin flips. */
  predicate LayoutFits(n: int, layout: seq<seq<bool>>) {
    n >= 0 && |layout| == n && forall x :: 0 <= x < n ==> |layout[x]| == n
  }

  /** createTiles: one fresh tile per cell, carrying that cell's position
      and the layout's bomb bit, covered and unflagged. */
  function CreateTiles(n: nat, layout: seq<seq<bool>>): (tiles: seq<seq<Tile>>)
    requires LayoutFits(n, layout)
    ensures |tiles| == n && forall x :: 0 <= x < n ==> |tiles[x]| == n
    ensures forall x, y :: 0 <= x < n && 0 <= y < n ==>
              var t := tiles[x][y];
              t.x == x && t.y == y && t.bomb == layout[x][y] && !t.discovered && !t.flagged
  {
    seq(n, x requires 0 <= x < n => seq(n, y requires 0 <= y < n => NewTile(x, y, layout[x][y])))
  }

  /** The constructor: fresh covered, unflagged tiles with the given bombs;
      remainingTiles starts at n * n and loses one per bomb. */
  function Create(n: nat, layout: seq<seq<bool>>): (g: Game)
    requires LayoutFits(n, layout)
    ensures Valid(g) && g.gridSize == n && !g.gameOver
    ensures forall x, y :: 0 <= x < n && 0 <= y < n ==>
              g.tiles[x][y].bomb == layout[x][y] && !g.tiles[x][y].discovered && !g.tiles[x][y].flagged
    ensures g.remainingTiles + GridCount(g.tiles, IsBomb) == n * n
  {
    var tiles := CreateTiles(n, layout);
    GridCountBombSafe(tiles);
    GridSizeSquare(tiles, n);
    GridCountSafeSplit(tiles);
    GridCountNone(tiles, IsDiscovered);
    Game(n, tiles, n * n - GridCount(tiles, IsBomb), false)
  }

  datatype Mark = AsDefault | AsFlag | AsBomb

  function MarkEvent(m: Mark, c: Cell): Event {
    match m
    case AsDefault => MakeDefault(c.0, c.1)
    case AsFlag => MakeFlag(c.0, c.1)
    case AsBomb => MakeBomb(c.0, c.1)
  }

  /** One notification per cell, in the order of `cs`. */
  function MarkAll(m: Mark, cs: seq<Cell>): (r: seq<Event>)
    ensures |r| == |cs|
    ensures forall i :: 0 <= i < |cs| ==> r[i] == MarkEvent(m, cs[i])
  {
    if |cs| == 0 then [] else [MarkEvent(m, cs[0])] + MarkAll(m, cs[1..])
  }

  /** reset(): a new board, the latch cleared, and every cell redrawn as covered. */
  function Reset(g: Game, layout: seq<seq<bool>>): (r: Step)
    requires WellFormed(g) && LayoutFits(g.gridSize, layout)
    ensures Valid(r.game) && !r.game.gameOver && r.game.gridSize == g.gridSize
    ensures forall x, y :: 0 <= x < g.gridSize && 0 <= y < g.gridSize ==>
              r.game.tiles[x][y].bomb == layout[x][y] && !r.game.tiles[x][y].discovered && !r.game.tiles[x][y].flagged
    ensures |r.events| == g.gridSize * g.gridSize
    ensures forall c: Cell :: MakeDefault(c.0, c.1) in r.events <==> InGrid(g.gridSize, c)
    ensures forall i :: 0 <= i < |r.events| ==> r.events[i].MakeDefault?
  {
    Step(Create(g.gridSize, layout), MarkAll(AsDefault, AllCells(g.gridSize)))
  }

  // ---------------------------------------------------------------------
  // Coordinates and neighbours.

  /** getTile: the tile at (x, y), or IllegalArgumentException when either
      coordinate lies outside 0 .. gridSize - 1. */
  function GetTile(g: Game, x: int, y: int): (r: Result<Tile>)
    requires WellFormed(g)
    ensures r.Ok? <==> InGrid(g.gridSize, (x, y))
    ensures r.Err? ==> r.error == IllegalArgument
    ensures r.Ok? ==> r.value.x == x && r.value.y == y && r.value == At(g, (x, y))
  {
    var ns := [x, y];
    assert ns[0] == x && ns[1] == y;
    if !InRange(0, g.gridSize - 1, ns) then Err(IllegalArgument) else Ok(g.tiles[x][y])
  }

  /** The 3-by-3 block around (x, y), in the order of the two nested loops. */
  function Block(x: int, y: int): seq<Cell> {
    [(x - 1, y - 1), (x - 1, y), (x - 1, y + 1),
     (x, y - 1), (x, y), (x, y + 1),
     (x + 1, y - 1), (x + 1, y), (x + 1, y + 1)]
  }

  lemma BlockCells(x: int, y: int)
    ensures forall c: Cell :: c in Block(x, y) <==> -1 <= c.0 - x <= 1 && -1 <= c.1 - y <= 1
    ensures Ascending(Block(x, y))
    ensures Block(x, y)[4] == (x, y)
  {
    BlockMembers(x, y);
    BlockAscending(x, y);
  }

  lemma BlockMembers(x: int, y: int)
    ensures forall c: Cell :: c in Block(x, y) <==> -1 <= c.0 - x <= 1 && -1 <= c.1 - y <= 1
  {
    var b := Block(x, y);
    forall c: Cell | -1 <= c.0 - x <= 1 && -1 <= c.1 - y <= 1
      ensures c in b
    {
      var i := 3 * (c.0 - x + 1) + (c.1 - y + 1);
      assert b[i] == c;
    }
  }

  lemma BlockAscending(x: int, y: int)
    ensures Ascending(Block(x, y))
  {
    var b := Block(x, y);
    forall i, j | 0 <= i < j < 9 ensures LexBefore(b[i], b[j]) {
      assert b[i] == (x - 1 + i / 3, y - 1 + i % 3);
      assert b[j] == (x - 1 + j / 3, y - 1 + j % 3);
    }
  }

  /** The filter of getNearbyTiles: inRange on both coordinates, and not
      the tile itself. */
  predicate KeepNear(n: int, x: int, y: int, c: Cell) {
    InRange(0, n - 1, [c.0, c.1]) && (c.0 != x || c.1 != y)
  }

  lemma KeepNearMeans(n: int, x: int, y: int, c: Cell)
    ensures KeepNear(n, x, y, c) <==> InGrid(n, c) && c != (x, y)
  {
    var ns := [c.0, c.1];
    assert ns[0] == c.0 && ns[1] == c.1;
  }

  /** getNearbyTiles: the in-grid cells around (x, y), the cell itself left out. */
  function NearbyTiles(n: int, x: int, y: int): (r: seq<Cell>)
    ensures forall c :: c in r <==> InGrid(n, c) && Adjacent(c, (x, y))
    ensures Ascending(r)
    ensures |r| <= 8
  {
    var b := Block(x, y);
    var keep := (c: Cell) => KeepNear(n, x, y, c);
    BlockCells(x, y);
    KeepNearMeans(n, x, y, b[4]);
    assert forall c: Cell :: keep(c) <==> InGrid(n, c) && c != (x, y) by {
      forall c: Cell ensures keep(c) <==> InGrid(n, c) && c != (x, y) {
        KeepNearMeans(n, x, y, c);
      }
    }
    Select(b, keep)
  }

  function BombsAmong(g: Game, cs: seq<Cell>): (k: nat)
    requires WellFormed(g)
    requires forall c :: c in cs ==> InGrid(g.gridSize, c)
    ensures k <= |cs|
    ensures k == 0 <==> forall c :: c in cs ==> !At(g, c).bomb
  {
    if |cs| == 0 then 0 else Ind(At(g, cs[0]).bomb) + BombsAmong(g, cs[1..])
  }

  /** getNearbyBombs: how many of the neighbours are bombs. */
  function NearbyBombs(g: Game, x: int, y: int): (k: nat)
    requires WellFormed(g)
    ensures k <= 8
  {
    BombsAmong(g, NearbyTiles(g.gridSize, x, y))
  }

  /** A tile counts zero exactly when none of its neighbours is a bomb. */
  lemma NearbyBombsZero(g: Game, x: int, y: int)
    requires WellFormed(g)
    ensures NearbyBombs(g, x, y) == 0 <==>
            forall c :: InGrid(g.gridSize, c) && Adjacent(c, (x, y)) ==> !At(g, c).bomb
  {
  }

  /** The bombs adjacent to (x, y) on the grid, as a set of cells: what
      getNearbyBombs counts, defined without the neighbour list. */
  function BombsAround(g: Game, x: int, y: int): set<Cell>
    requires WellFormed(g)
  {
    set a, b | 0 <= a < g.gridSize && 0 <= b < g.gridSize && Adjacent((a, b), (x, y)) && g.tiles[a][b].bomb :: (a, b)
  }

  /** The bomb cells of a list of cells. */
  function BombSet(g: Game, cs: seq<Cell>): set<Cell>
    requires WellFormed(g)
    requires forall c :: c in cs ==> InGrid(g.gridSize, c)
  {
    set c | c in cs && At(g, c).bomb
  }

  /** Over a list without repeats (an ascending one), BombsAmong is the
      number of distinct bomb cells in it. */
  lemma {:induction false} BombsAmongCounts(g: Game, cs: seq<Cell>)
    requires WellFormed(g)
    requires forall c :: c in cs ==> InGrid(g.gridSize, c)
    requires Ascending(cs)
    ensures BombsAmong(g, cs) == |BombSet(g, cs)|
  {
    if |cs| > 0 {
      var rest := cs[1..];
      BombsAmongCounts(g, rest);
      assert cs[0] !in rest by {
        forall j | 0 <= j < |rest| ensures rest[j] != cs[0] {
          assert LexBefore(cs[0], cs[j + 1]);
        }
      }
      assert forall c :: c in cs <==> c == cs[0] || c in rest;
      if At(g, cs[0]).bomb {
        assert BombSet(g, cs) == {cs[0]} + BombSet(g, rest);
      } else {
        assert BombSet(g, cs) == BombSet(g, rest);
      }
    }
  }

  /** getNearbyBombs counts every bomb adjacent to the tile exactly once. */
  lemma NearbyBombsCount(g: Game, x: int, y: int)
    requires WellFormed(g)
    ensures NearbyBombs(g, x, y) == |BombsAround(g, x, y)|
  {
    var near := NearbyTiles(g.gridSize, x, y);
    BombsAmongCounts(g, near);
    forall c ensures c in BombSet(g, near) <==> c in BombsAround(g, x, y) {
      if c in BombsAround(g, x, y) {
        var a, b :| 0 <= a < g.gridSize && 0 <= b < g.gridSize && Adjacent((a, b), (x, y))
                    && g.tiles[a][b].bomb && c == (a, b);
        assert c in near;
      }
    }
    assert BombSet(g, near) == BombsAround(g, x, y);
  }

  // ---------------------------------------------------------------------
  // trigger and its flood-fill.

  /** setDiscovered(true) on the tile at `c` together with --remainingTiles. */
  function DiscoverOne(g: Game, c: Cell): (r: Game)
    requires WellFormed(g) && InGrid(g.gridSize, c)
    ensures WellFormed(r) && r.gridSize == g.gridSize && r.gameOver == g.gameOver
    ensures r.remainingTiles == g.remainingTiles - 1
    ensures forall a, b :: 0 <= a < g.gridSize && 0 <= b < g.gridSize ==>
              r.tiles[a][b] == if (a, b) == c then SetDiscovered(g.tiles[a][b], true) else g.tiles[a][b]
  {
    UpdateTile(g, c, SetDiscovered(At(g, c), true)).(remainingTiles := g.remainingTiles - 1)
  }

  /** The outcome of uncoverAdjacentZeros: whether it reached a win, the
      state it left, and the makeUncovered notifications it sent. */
  datatype Flood = Flood(won: bool, game: Game, events: seq<Event>)

  /** The loop of uncoverAdjacentZeros over the cells `cs`: every covered,
      unflagged cell is discovered and announced; a zero cell recurses into
      its own neighbours; the moment remainingTiles drops to zero the whole
      fill stops and reports a win. */
  function UncoverFrom(g: Game, cs: seq<Cell>): (r: Flood)
    requires WellFormed(g)
    requires forall c :: c in cs ==> InGrid(g.gridSize, c)
    ensures WellFormed(r.game) && r.game.gridSize == g.gridSize
    ensures r.game.remainingTiles <= g.remainingTiles
    decreases g.remainingTiles, |cs|
  {
    if |cs| == 0 then Flood(false, g, [])
    else
      var c := cs[0];
      var near := At(g, c);
      if near.discovered || near.flagged then UncoverFrom(g, cs[1..])
      else
        var n := NearbyBombs(g, c.0, c.1);
        var g1 := DiscoverOne(g, c);
        var ev := [MakeUncovered(c.0, c.1, n)];
        if g1.remainingTiles <= 0 then Flood(true, g1, ev)
        else if n == 0 then
          var sub := UncoverFrom(g1, NearbyTiles(g.gridSize, c.0, c.1));
          if sub.won then Flood(true, sub.game, ev + sub.events)
          else
            var rest := UncoverFrom(sub.game, cs[1..]);
            Flood(rest.won, rest.game, ev + sub.events + rest.events)
        else
          var rest := UncoverFrom(g1, cs[1..]);
          Flood(rest.won, rest.game, ev + rest.events)
  }

  /** uncoverAdjacentZeros(tile at (x, y)): every tile it announces is a
      neighbour of (x, y) or of a zero tile it announced earlier. */
  function UncoverAdjacentZeros(g: Game, x: int, y: int): (r: Flood)
    requires WellFormed(g)
    ensures WellFormed(r.game) && r.game.gridSize == g.gridSize
    ensures r.game.remainingTiles <= g.remainingTiles
    ensures Reached(NearbyTiles(g.gridSize, x, y), r.events)
  {
    var near := NearbyTiles(g.gridSize, x, y);
    UncoverFromReached(g, near);
    UncoverFrom(g, near)
  }

  // ---------------------------------------------------------------------
  // Where the flood-fill may go.

  /** `e` announces a tile with no bomb around it. */
  predicate ZeroNotice(e: Event) {
    e.MakeUncovered? && e.n == 0
  }

  /** Notification `i` of a fill over `cs` is about a cell of `cs`, or about
      a neighbour of a zero tile announced before it: the fill recurses
      only from zero tiles. */
  ghost predicate Supported(cs: seq<Cell>, evs: seq<Event>, i: int)
    requires 0 <= i < |evs|
  {
    || (evs[i].x, evs[i].y) in cs
    || exists j :: 0 <= j < i && ZeroNotice(evs[j]) && Adjacent((evs[i].x, evs[i].y), (evs[j].x, evs[j].y))
  }

  /** Every notification of a fill over `cs` is supported. */
  ghost predicate Reached(cs: seq<Cell>, evs: seq<Event>) {
    forall i :: 0 <= i < |evs| ==> Supported(cs, evs, i)
  }

  /** A fill over `cs` only reaches where `cs` lets it. */
  lemma {:induction false} UncoverFromReached(g: Game, cs: seq<Cell>)
    requires WellFormed(g)
    requires forall c :: c in cs ==> InGrid(g.gridSize, c)
    ensures Reached(cs, UncoverFrom(g, cs).events)
    decreases g.remainingTiles, |cs|
  {
    if |cs| == 0 {
      return;
    }
    var c := cs[0];
    var r := UncoverFrom(g, cs);
    if At(g, c).discovered || At(g, c).flagged {
      UncoverFromReached(g, cs[1..]);
      ReachedWiden(cs[1..], cs, r.events);
      return;
    }
    var n := NearbyBombs(g, c.0, c.1);
    var g1 := DiscoverOne(g, c);
    var ev := [MakeUncovered(c.0, c.1, n)];
    ReachedHead(cs, ev);
    if g1.remainingTiles <= 0 {
      return;
    }
    if n == 0 {
      var near := NearbyTiles(g.gridSize, c.0, c.1);
      var sub := UncoverFrom(g1, near);
      UncoverFromReached(g1, near);
      ReachedBelow(cs, near, sub.events);
      if !sub.won {
        var rest := UncoverFrom(sub.game, cs[1..]);
        UncoverFromReached(sub.game, cs[1..]);
        ReachedWiden(cs[1..], cs, rest.events);
        ReachedAppend(cs, ev + sub.events, rest.events);
      }
    } else {
      var rest := UncoverFrom(g1, cs[1..]);
      UncoverFromReached(g1, cs[1..]);
      ReachedWiden(cs[1..], cs, rest.events);
      ReachedAppend(cs, ev, rest.events);
    }
  }

  /** The announcement of the first listed cell is supported. */
  lemma ReachedHead(cs: seq<Cell>, ev: seq<Event>)
    requires |cs| > 0 && |ev| == 1 && (ev[0].x, ev[0].y) == cs[0]
    ensures Reached(cs, ev)
  {
    assert Supported(cs, ev, 0);
  }

  lemma ReachedWiden(cs: seq<Cell>, ds: seq<Cell>, evs: seq<Event>)
    requires Reached(cs, evs)
    requires forall c :: c in cs ==> c in ds
    ensures Reached(ds, evs)
  {
    forall i | 0 <= i < |evs| ensures Supported(ds, evs, i) {
      assert Supported(cs, evs, i);
    }
  }

  lemma ReachedAppend(cs: seq<Cell>, a: seq<Event>, b: seq<Event>)
    requires Reached(cs, a) && Reached(cs, b)
    ensures Reached(cs, a + b)
  {
    var ab := a + b;
    forall i | 0 <= i < |ab| ensures Supported(cs, ab, i) {
      if i < |a| {
        assert Supported(cs, a, i);
        assert ab[i] == a[i];
        if (a[i].x, a[i].y) !in cs {
          var j :| 0 <= j < i && ZeroNotice(a[j]) && Adjacent((a[i].x, a[i].y), (a[j].x, a[j].y));
          assert ab[j] == a[j];
        }
      } else {
        var k := i - |a|;
        assert Supported(cs, b, k);
        assert ab[i] == b[k];
        if (b[k].x, b[k].y) !in cs {
          var j :| 0 <= j < k && ZeroNotice(b[j]) && Adjacent((b[k].x, b[k].y), (b[j].x, b[j].y));
          assert ab[j + |a|] == b[j];
        }
      }
    }
  }

  /** A zero tile's announcement followed by a fill over its neighbours. */
  lemma ReachedBelow(cs: seq<Cell>, near: seq<Cell>, sub: seq<Event>)
    requires |cs| > 0 && Reached(near, sub)
    requires forall d :: d in near ==> Adjacent(d, cs[0])
    ensures Reached(cs, [MakeUncovered(cs[0].0, cs[0].1, 0)] + sub)
  {
    var e := MakeUncovered(cs[0].0, cs[0].1, 0);
    var all := [e] + sub;
    forall i | 0 <= i < |all| ensures Supported(cs, all, i) {
      if i == 0 {
        assert (all[0].x, all[0].y) == cs[0];
      } else {
        var k := i - 1;
        assert Supported(near, sub, k);
        assert all[i] == sub[k];
        assert ZeroNotice(all[0]);
        if (sub[k].x, sub[k].y) !in near {
          var j :| 0 <= j < k && ZeroNotice(sub[j]) && Adjacent((sub[k].x, sub[k].y), (sub[j].x, sub[j].y));
          assert all[j + 1] == sub[j];
        } else {
          assert Adjacent((all[i].x, all[i].y), (all[0].x, all[0].y));
        }
      }
    }
  }

  /** Every bomb, in loop order. */
  function BombCells(g: Game): seq<Cell>
    requires WellFormed(g)
  {
    Select(AllCells(g.gridSize), c => InGrid(g.gridSize, c) && At(g, c).bomb)
  }

  /** Every bomb other than (x, y), in loop order. */
  function OtherBombCells(g: Game, x: int, y: int): seq<Cell>
    requires WellFormed(g)
  {
    Select(AllCells(g.gridSize), c => InGrid(g.gridSize, c) && At(g, c).bomb && (c.0 != x || c.1 != y))
  }

  /** The losing branch: gameLose on the triggered bomb, the latch set, then
      makeBomb on every other bomb. */
  function Lose(g: Game, x: int, y: int): (r: Step)
    requires WellFormed(g)
    ensures WellFormed(r.game) && r.game.gridSize == g.gridSize
  {
    Step(g.(gameOver := true), [GameLose(x, y)] + MarkAll(AsBomb, OtherBombCells(g, x, y)))
  }

  /** The winning branch: the notifications sent so far, gameWin on the
      triggered tile, the latch set, then makeFlag on every bomb. */
  function Win(g: Game, x: int, y: int, n: int, prior: seq<Event>): (r: Step)
    requires WellFormed(g)
    ensures WellFormed(r.game) && r.game.gridSize == g.gridSize
  {
    Step(g.(gameOver := true), prior + [GameWin(x, y, n)] + MarkAll(AsFlag, BombCells(g)))
  }

  /** The safe branch of trigger on the covered tile (x, y): discover it,
      count its bombs, then settle the outcome. */
  function Reveal(g: Game, x: int, y: int): (r: Step)
    requires WellFormed(g) && InGrid(g.gridSize, (x, y))
    ensures WellFormed(r.game) && r.game.gridSize == g.gridSize
  {
    var g1 := DiscoverOne(g, (x, y));
    Settle(g1, x, y, NearbyBombs(g1, x, y))
  }

  /** `--remainingTiles <= 0 || nearbyBombs == 0 && uncoverAdjacentZeros(tile)`
      decides between the win sequence and one makeUncovered on (x, y). */
  function Settle(g: Game, x: int, y: int, n: int): (r: Step)
    requires WellFormed(g)
    ensures WellFormed(r.game) && r.game.gridSize == g.gridSize
  {
    if g.remainingTiles <= 0 then Win(g, x, y, n, [])
    else if n == 0 then AfterFlood(UncoverAdjacentZeros(g, x, y), x, y)
    else Step(g, [MakeUncovered(x, y, n)])
  }

  /** After the flood-fill from the zero tile (x, y). */
  function AfterFlood(f: Flood, x: int, y: int): (r: Step)
    requires WellFormed(f.game)
    ensures WellFormed(r.game) && r.game.gridSize == f.game.gridSize
  {
    if f.won then Win(f.game, x, y, 0, f.events)
    else Step(f.game, f.events + [MakeUncovered(x, y, 0)])
  }

  /** trigger(x, y): the player uncovers a tile. */
  function Trigger(g: Game, x: int, y: int): (r: Result<Step>)
    requires WellFormed(g)
    ensures g.gameOver ==> r == Ok(Step(g, []))
    ensures !g.gameOver ==> (r.Err? <==> !InGrid(g.gridSize, (x, y)))
    ensures r.Err? ==> r.error == IllegalArgument
    ensures !g.gameOver && InGrid(g.gridSize, (x, y)) && (At(g, (x, y)).discovered || At(g, (x, y)).flagged)
            ==> r == Ok(Step(g, []))
    ensures r.Ok? ==> WellFormed(r.value.game) && r.value.game.gridSize == g.gridSize
  {
    if g.gameOver then Ok(Step(g, []))
    else match GetTile(g, x, y)
      case Err(e) => Err(e)
      case Ok(t) =>
        if t.discovered || t.flagged then Ok(Step(g, []))
        else if t.bomb then Ok(Lose(g, x, y))
        else Ok(Reveal(g, x, y))
  }

  // ---------------------------------------------------------------------
  // toggle and hint.

  /** toggle(x, y): flag or unflag a covered tile. */
  function Toggle(g: Game, x: int, y: int): (r: Result<Step>)
    requires WellFormed(g)
    ensures g.gameOver ==> r == Ok(Step(g, []))
    ensures !g.gameOver ==> (r.Err? <==> !InGrid(g.gridSize, (x, y)))
    ensures r.Err? ==> r.error == IllegalArgument
    ensures !g.gameOver && InGrid(g.gridSize, (x, y)) && At(g, (x, y)).discovered ==> r == Ok(Step(g, []))
    ensures r.Ok? ==> WellFormed(r.value.game) && r.value.game.gridSize == g.gridSize
  {
    if g.gameOver then Ok(Step(g, []))
    else match GetTile(g, x, y)
      case Err(e) => Err(e)
      case Ok(t) =>
        if t.discovered then Ok(Step(g, []))
        else
          var flag := !t.flagged;
          Ok(Step(UpdateTile(g, (x, y), SetFlagged(t, flag)),
                  [if flag then MakeFlag(x, y) else MakeDefault(x, y)]))
  }

  /** The tiles a hint may pick: covered, not a bomb, no bomb around. */
  function Available(g: Game): (r: seq<Cell>)
    requires WellFormed(g)
    ensures forall c :: c in r <==>
              InGrid(g.gridSize, c) && !At(g, c).discovered && !At(g, c).bomb && NearbyBombs(g, c.0, c.1) == 0
    ensures Ascending(r)
  {
    Select(AllCells(g.gridSize),
           c => InGrid(g.gridSize, c) && !At(g, c).discovered && !At(g, c).bomb && NearbyBombs(g, c.0, c.1) == 0)
  }

  /** hint(): unflag and trigger the `pick`-th available tile (the source
      picks the index at random), or IllegalStateException when none is
      available. */
  function Hint(g: Game, pick: int): (r: Result<Step>)
    requires WellFormed(g)
    requires !g.gameOver && |Available(g)| > 0 ==> 0 <= pick < |Available(g)|
    ensures g.gameOver ==> r == Ok(Step(g, []))
  {
    if g.gameOver then Ok(Step(g, []))
    else
      var av := Available(g);
      if |av| == 0 then Err(IllegalState)
      else
        var c := av[pick];
        assert c in av;
        Trigger(UpdateTile(g, c, SetFlagged(At(g, c), false)), c.0, c.1)
  }
}
